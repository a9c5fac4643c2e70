/** The limit as a ceiling: what any run of bookings, approvals, releases, edits and cancellations can commit a customer to. */
module CreditCeiling {
  import opened Wrappers
  import opened Reservations
  import opened CreditPolicy

  // ---- A decision bounds what is committed -----------------------------------------------

  lemma {:induction false} SiteRateIs(stations: seq<Station>, site: nat)
    requires OneRatePerSite(stations) && SiteRate(stations, site).Some?
    ensures SiteRate(stations, site) == Some(RateOf(stations, site))
  {
    SiteRateFrom(stations, site);
    RateOfFrom(stations, site);
  }

  lemma {:induction false} SiteRateFrom(stations: seq<Station>, site: nat)
    requires SiteRate(stations, site).Some?
    ensures exists i :: 0 <= i < |stations| && stations[i].site == site && stations[i].active && SiteRate(stations, site) == Some(stations[i].taxPct)
    ensures forall i :: 0 <= i < |stations| && stations[i].site == site && stations[i].active ==> stations[i].taxPct <= SiteRate(stations, site).value
  {
    var n := |stations| - 1;
    var before := stations[..n];
    if SiteRate(before, site).Some? {
      SiteRateFrom(before, site);
      var i :| 0 <= i < |before| && before[i].site == site && before[i].active && SiteRate(before, site) == Some(before[i].taxPct);
      assert stations[i] == before[i];
    } else {
      NoneActive(before, site);
    }
    if stations[n].site == site && stations[n].active {}
    forall i | 0 <= i < |stations| && stations[i].site == site && stations[i].active ensures stations[i].taxPct <= SiteRate(stations, site).value {
      if i < n { assert before[i] == stations[i]; }
    }
  }

  lemma {:induction false} NoneActive(stations: seq<Station>, site: nat)
    requires SiteRate(stations, site).None?
    ensures forall i :: 0 <= i < |stations| ==> !(stations[i].site == site && stations[i].active)
  {
    if stations != [] {
      var before := stations[..|stations| - 1];
      NoneActive(before, site);
      forall i | 0 <= i < |stations| ensures !(stations[i].site == site && stations[i].active) {
        if i < |before| { assert before[i] == stations[i]; }
      }
    }
  }

  lemma {:induction false} RateOfFrom(stations: seq<Station>, site: nat)
    requires exists i :: 0 <= i < |stations| && stations[i].site == site
    ensures exists i :: 0 <= i < |stations| && stations[i].site == site && RateOf(stations, site) == stations[i].taxPct
  {
    if stations[0].site != site {
      var i :| 0 <= i < |stations| && stations[i].site == site;
      assert stations[1..][i - 1].site == site;
      RateOfFrom(stations[1..], site);
      var j :| 0 <= j < |stations[1..]| && stations[1..][j].site == site && RateOf(stations[1..], site) == stations[1..][j].taxPct;
      assert stations[j + 1] == stations[1..][j];
    }
  }

  /** How many invoices are not paid up, and how many tickets and commitments were valued at more than nothing. */
  function CountInvoices(w: World, c: nat, n: nat): nat
    requires n <= |w.invoices|
  {
    if n == 0 then 0 else CountInvoices(w, c, n - 1) + (if ExactInvoice(w, c, n - 1) > 0.0 then 1 else 0)
  }

  function CountTickets(w: World, c: nat, n: nat): nat
    requires n <= |w.tickets|
  {
    if n == 0 then 0 else CountTickets(w, c, n - 1) + (if CountsTicket(w, c, n - 1) && Accepted(w.tickets[n - 1]) > 0.0 then 1 else 0)
  }

  function CountCommitments(w: World, c: nat, n: nat): nat
    requires n <= |w.reservations|
  {
    if n == 0 then 0 else CountCommitments(w, c, n - 1) + (if CountsReservation(w, c, n - 1) && Remaining(w, n - 1) > 0.0 then 1 else 0)
  }

  function Items(w: World, c: nat): nat {
    CountInvoices(w, c, |w.invoices|) + CountTickets(w, c, |w.tickets|) + CountCommitments(w, c, |w.reservations|)
  }

  lemma {:induction false} TicketsTallied(w: World, c: nat, n: nat)
    requires n <= |w.tickets| && !Tickets(w, c, n).unpriced
    ensures !Invoices(w, c, |w.invoices|).unpriced
    ensures Sum(ExactTickets(w, c)[..n])
            <= (Tickets(w, c, n).minor - Invoices(w, c, |w.invoices|).minor) as real + CountTickets(w, c, n) as real * 0.5
  {
    var xs := ExactTickets(w, c);
    if n == 0 {
      NoInvoiceUnpriced(w, c, |w.invoices|);
      assert xs[..0] == [];
    } else {
      TicketsTallied(w, c, n - 1);
      assert xs[..n][..n - 1] == xs[..n - 1];
      if CountsTicket(w, c, n - 1) && Accepted(w.tickets[n - 1]) > 0.0 {
        var t := w.tickets[n - 1];
        RoundingIsHalf(Worth(Accepted(t), UsablePrice(w, c, w.reservations[t.reservation].terms.mix), w.stations[t.station].taxPct));
      } else {
        assert xs[n - 1] == 0.0;
      }
    }
  }

  /** The tally's part for invoices is what they ask for, give or take half a minor unit for each that asks for anything. */
  lemma {:induction false} InvoicesTallied(w: World, c: nat, n: nat)
    requires n <= |w.invoices|
    ensures var off := Invoices(w, c, n).minor as real - Sum(ExactInvoices(w, c)[..n]);
            -0.5 * CountInvoices(w, c, n) as real <= off <= 0.5 * CountInvoices(w, c, n) as real
  {
    var xs := ExactInvoices(w, c);
    if n == 0 {
      assert xs[..0] == [];
    } else {
      InvoicesTallied(w, c, n - 1);
      assert xs[..n][..n - 1] == xs[..n - 1];
      RoundingIsHalf(AmountDue(w.invoices[n - 1]));
    }
  }

  lemma {:induction false} NoInvoiceUnpriced(w: World, c: nat, n: nat)
    requires n <= |w.invoices|
    ensures !Invoices(w, c, n).unpriced
  {
    if n > 0 { NoInvoiceUnpriced(w, c, n - 1); }
  }

  /** The commitments but for the one being decided, which is the proposal instead. */
  function ExactOther(w: World, c: nat, target: Option<nat>, r: nat): real
    requires r < |w.reservations|
  {
    if target == Some(r) then 0.0 else ExactCommitment(w, c, r)
  }

  function ExactOthers(w: World, c: nat, target: Option<nat>): seq<real> {
    seq(|w.reservations|, r requires 0 <= r < |w.reservations| => ExactOther(w, c, target, r))
  }

  function CountOthers(w: World, c: nat, target: Option<nat>, n: nat): nat
    requires n <= |w.reservations|
  {
    if n == 0 then 0
    else CountOthers(w, c, target, n - 1) + (if CountsReservation(w, c, n - 1) && target != Some(n - 1) && Remaining(w, n - 1) > 0.0 then 1 else 0)
  }

  lemma VolumeValued(w: World, c: nat, t: Tally, volume: real, mix: nat, site: nat)
    requires OneRatePerSite(w.stations) && !AddCommitment(w, c, t, volume, mix, site).unpriced
    ensures !t.unpriced
    ensures ExactVolume(w, c, volume, mix, site)
            <= (AddCommitment(w, c, t, volume, mix, site).minor - t.minor) as real + (if volume > 0.0 then 0.5 else 0.0)
  {
    if volume > 0.0 {
      SiteRateIs(w.stations, site);
      RoundingIsHalf(Worth(volume, UsablePrice(w, c, mix), RateOf(w.stations, site)));
    }
  }

  lemma {:induction false} CommitmentsTallied(w: World, c: nat, target: Option<nat>, n: nat)
    requires OneRatePerSite(w.stations) && n <= |w.reservations| && !Commitments(w, c, target, n).unpriced
    ensures !Tickets(w, c, |w.tickets|).unpriced
    ensures Sum(ExactOthers(w, c, target)[..n])
            <= (Commitments(w, c, target, n).minor - Tickets(w, c, |w.tickets|).minor) as real + CountOthers(w, c, target, n) as real * 0.5
  {
    var xs := ExactOthers(w, c, target);
    if n == 0 {
      assert xs[..0] == [];
    } else {
      assert xs[..n][..n - 1] == xs[..n - 1];
      var before := Commitments(w, c, target, n - 1);
      if CountsReservation(w, c, n - 1) && target != Some(n - 1) {
        VolumeValued(w, c, before, Remaining(w, n - 1), w.reservations[n - 1].terms.mix, w.reservations[n - 1].terms.site);
      }
      CommitmentsTallied(w, c, target, n - 1);
    }
  }

  /** The proposal's own volume, unrounded, and whether it is an item of its own. */
  function ExactProposal(w: World, c: nat, p: Proposal): real {
    match p
    case NewBooking(mix, site, volume) => ExactVolume(w, c, volume, mix, site)
    case Existing(r) => if r < |w.reservations| then ExactVolume(w, c, Remaining(w, r), w.reservations[r].terms.mix, w.reservations[r].terms.site) else 0.0
  }

  predicate IsItem(w: World, p: Proposal) {
    match p
    case NewBooking(_, _, volume) => volume > 0.0
    case Existing(r) => r < |w.reservations| && Remaining(w, r) > 0.0
  }

  predicate Passes(w: World, c: nat, p: Proposal) {
    Evaluate(w, c, p).Some? && Evaluate(w, c, p).value.withinLimit
  }

  /** A decision that passes puts the exact sum, proposal included, within half a minor unit per item of the limit. */
  lemma PassingBounds(w: World, c: nat, p: Proposal)
    requires OneRatePerSite(w.stations) && Passes(w, c, p)
    ensures Sum(ExactInvoices(w, c)) + Sum(ExactTickets(w, c)) + Sum(ExactOthers(w, c, TargetOf(p))) + ExactProposal(w, c, p)
            <= ToMinor(w.limits[c]) as real
               + (CountInvoices(w, c, |w.invoices|) + CountTickets(w, c, |w.tickets|) + CountOthers(w, c, TargetOf(p), |w.reservations|) + (if IsItem(w, p) then 1 else 0)) as real * 0.5
  {
    var target, t := TargetOf(p), Commitments(w, c, TargetOf(p), |w.reservations|);
    match p {
      case NewBooking(mix, site, volume) => VolumeValued(w, c, t, volume, mix, site);
      case Existing(r) => VolumeValued(w, c, t, Remaining(w, r), w.reservations[r].terms.mix, w.reservations[r].terms.site);
    }
    CommitmentsTallied(w, c, target, |w.reservations|);
    TicketsTallied(w, c, |w.tickets|);
    InvoicesTallied(w, c, |w.invoices|);
    assert ExactInvoices(w, c)[..|w.invoices|] == ExactInvoices(w, c);
    assert ExactOthers(w, c, target)[..|w.reservations|] == ExactOthers(w, c, target);
    assert ExactTickets(w, c)[..|w.tickets|] == ExactTickets(w, c);
  }

  /** An amount that rounds to a minor unit at least. */
  predicate StillOpen(w: World, c: nat, i: nat)
    requires i < |w.invoices|
  {
    ExactInvoice(w, c, i) >= 0.5
  }

  ghost predicate InvoicesSeen(w: World, c: nat, n: nat, t: Tally)
    requires n <= |w.invoices|
  {
    forall i :: 0 <= i < n && StillOpen(w, c, i) ==> w.invoices[i].currency in t.currencies
  }

  lemma {:induction false} SeesInvoices(w: World, c: nat, n: nat)
    requires n <= |w.invoices|
    ensures InvoicesSeen(w, c, n, Invoices(w, c, n))
  {
    if n > 0 { SeesInvoices(w, c, n - 1); }
  }

  /** Everything the tally has met could be valued, and it has met every one of their currencies. */
  ghost predicate TicketsSeen(w: World, c: nat, n: nat, t: Tally)
    requires n <= |w.tickets|
  {
    !t.unpriced ==> forall i :: 0 <= i < n && CountsTicket(w, c, i) ==>
      && UsablePrice(w, c, w.reservations[w.tickets[i].reservation].terms.mix) > 0.0
      && w.stations[w.tickets[i].station].currency in t.currencies
  }

  ghost predicate CommitmentsSeen(w: World, c: nat, target: Option<nat>, n: nat, t: Tally)
    requires n <= |w.reservations|
  {
    !t.unpriced ==> forall r :: 0 <= r < n && CountsReservation(w, c, r) && target != Some(r) && Remaining(w, r) > 0.0 ==>
      && UsablePrice(w, c, w.reservations[r].terms.mix) > 0.0 && SiteRate(w.stations, w.reservations[r].terms.site).Some?
      && SiteCurrencies(w.stations, w.reservations[r].terms.site) <= t.currencies
  }

  lemma {:induction false} SeesTickets(w: World, c: nat, n: nat)
    requires n <= |w.tickets|
    ensures TicketsSeen(w, c, n, Tickets(w, c, n)) && InvoicesSeen(w, c, |w.invoices|, Tickets(w, c, n))
  {
    if n > 0 { SeesTickets(w, c, n - 1); } else { SeesInvoices(w, c, |w.invoices|); }
  }

  lemma {:induction false} SeesCommitments(w: World, c: nat, target: Option<nat>, n: nat)
    requires n <= |w.reservations|
    ensures TicketsSeen(w, c, |w.tickets|, Commitments(w, c, target, n)) && InvoicesSeen(w, c, |w.invoices|, Commitments(w, c, target, n))
    ensures CommitmentsSeen(w, c, target, n, Commitments(w, c, target, n))
  {
    hide CountsTicket, CountsReservation, Remaining, SiteRate, SiteCurrencies, UsablePrice;
    if n == 0 {
      SeesTickets(w, c, |w.tickets|);
    } else {
      SeesCommitments(w, c, target, n - 1);
      SeesOneMore(w, c, Commitments(w, c, target, n - 1), target, n - 1);
    }
  }

  lemma SeesOneMore(w: World, c: nat, t: Tally, target: Option<nat>, r: nat)
    requires r < |w.reservations| && TicketsSeen(w, c, |w.tickets|, t) && CommitmentsSeen(w, c, target, r, t)
    requires InvoicesSeen(w, c, |w.invoices|, t)
    ensures TicketsSeen(w, c, |w.tickets|, AddReservation(w, c, t, target, r)) && InvoicesSeen(w, c, |w.invoices|, AddReservation(w, c, t, target, r))
    ensures CommitmentsSeen(w, c, target, r + 1, AddReservation(w, c, t, target, r))
  {
    hide CountsTicket, Remaining, SiteRate, SiteCurrencies;
  }

  /** Every invoice still open, every ticket and every remaining booking but the one decided on: all of them, and the proposal itself, in these currencies. */
  ghost predicate AllIn(w: World, c: nat, p: Proposal, currencies: set<nat>) {
    && (forall i :: 0 <= i < |w.invoices| && StillOpen(w, c, i) ==> w.invoices[i].currency in currencies)
    && (forall i :: 0 <= i < |w.tickets| && CountsTicket(w, c, i) ==> w.stations[w.tickets[i].station].currency in currencies)
    && (forall r :: 0 <= r < |w.reservations| && CountsReservation(w, c, r) && TargetOf(p) != Some(r) && Remaining(w, r) > 0.0 ==>
          SiteCurrencies(w.stations, w.reservations[r].terms.site) <= currencies)
    && match p
       case NewBooking(_, site, _) => SiteCurrencies(w.stations, site) <= currencies
       case Existing(r) => r < |w.reservations| && Remaining(w, r) > 0.0 ==> SiteCurrencies(w.stations, w.reservations[r].terms.site) <= currencies
  }

  /**
   The decision fails closed. It passes only if there is a limit and headroom
   under it, every ticket and every remaining booking has a usable price, every
   booking's site an active station to take a tax rate from, and all of them are in one currency.
   */
  lemma PassesOnlyIfValued(w: World, c: nat, p: Proposal)
    requires Passes(w, c, p)
    ensures ToMinor(w.limits[c]) > 0 && Commitments(w, c, TargetOf(p), |w.reservations|).minor < ToMinor(w.limits[c])
    ensures forall i :: 0 <= i < |w.tickets| && CountsTicket(w, c, i) ==>
              UsablePrice(w, c, w.reservations[w.tickets[i].reservation].terms.mix) > 0.0
    ensures forall r :: 0 <= r < |w.reservations| && CountsReservation(w, c, r) && TargetOf(p) != Some(r) && Remaining(w, r) > 0.0 ==>
              && UsablePrice(w, c, w.reservations[r].terms.mix) > 0.0 && SiteRate(w.stations, w.reservations[r].terms.site).Some?
    ensures exists currencies :: |currencies| <= 1 && AllIn(w, c, p, currencies)
    ensures p.NewBooking? ==> p.volume > 0.0
  {
    hide CountsReservation, Remaining, SiteRate, SiteCurrencies, UsablePrice, ToMinor, Tickets;
    var t := Commitments(w, c, TargetOf(p), |w.reservations|);
    var all := WithProposal(w, c, t, p);
    SeesCommitments(w, c, TargetOf(p), |w.reservations|);
    assert !all.unpriced && !t.unpriced && t.currencies <= all.currencies && |all.currencies| <= 1;
    assert AllIn(w, c, p, all.currencies);
  }

  // ---- Steps that decide credit for themselves ----------------------------------------------

  function ProposalOf(w: World, e: Event): Option<(nat, Proposal)> {
    match e
    case Book(terms, _) => if terms.project in w.customerOf then Some((w.customerOf[terms.project], NewBooking(terms.mix, terms.site, terms.volume))) else None
    case ApproveFinal(r, _) => CustomerOf(w, r)
    case Release(r, _, _, _, _) => CustomerOf(w, r)
    case _ => None
  }

  function CustomerOf(w: World, r: nat): Option<(nat, Proposal)> {
    if r < |w.reservations| && w.reservations[r].terms.project in w.customerOf
    then Some((w.customerOf[w.reservations[r].terms.project], Existing(r))) else None
  }

  /** The decision the operation makes, in the transaction that acts on it. */
  predicate Decided(w: World, e: Event) {
    ProposalOf(w, e).Some? && Passes(w, ProposalOf(w, e).value.0, ProposalOf(w, e).value.1)
  }

  function CreditStep(w: World, e: Event): World {
    Step(w, e, Decided(w, e))
  }

  /** Every booking, final approval and release acts on a decision about itself, for its project's customer; nothing else asks. */
  lemma CreditIsAsked(w: World, e: Event)
    ensures var asks := match e
                        case Book(terms, _) => if terms.project in w.customerOf then Some((w.customerOf[terms.project], NewBooking(terms.mix, terms.site, terms.volume))) else None
                        case ApproveFinal(r, _) =>
                          if r < |w.reservations| && w.reservations[r].terms.project in w.customerOf
                          then Some((w.customerOf[w.reservations[r].terms.project], Existing(r))) else None
                        case Release(r, _, _, _, _) =>
                          if r < |w.reservations| && w.reservations[r].terms.project in w.customerOf
                          then Some((w.customerOf[w.reservations[r].terms.project], Existing(r))) else None
                        case _ => None;
            CreditStep(w, e) == Step(w, e, asks.Some? && Passes(w, asks.value.0, asks.value.1))
  {
    hide Step, Passes;
  }

  predicate DecidedFor(w: World, e: Event, c: nat) {
    ProposalOf(w, e).Some? && ProposalOf(w, e).value.0 == c && Passes(w, c, ProposalOf(w, e).value.1)
  }

  ghost predicate SameTables(w: World, w': World) {
    w'.stations == w.stations && w'.invoices == w.invoices && w'.customerOf == w.customerOf && w'.prices == w.prices && w'.limits == w.limits
  }

  lemma {:induction false} InvoicesSame(w: World, w': World, c: nat, n: nat)
    requires SameTables(w, w') && n <= |w.invoices|
    ensures Invoices(w', c, n) == Invoices(w, c, n) && CountInvoices(w', c, n) == CountInvoices(w, c, n)
    ensures ExactInvoices(w', c) == ExactInvoices(w, c)
  {
    assert ExactInvoices(w', c) == ExactInvoices(w, c);
    if n > 0 { InvoicesSame(w, w', c, n - 1); }
  }

  lemma ProductNotNegative(x: real, y: real)
    requires 0.0 <= x && 0.0 <= y
    ensures 0.0 <= x * y
  {}

  lemma WorthOrdered(v: real, v': real, price: real, tax: real)
    requires 0.0 <= v <= v' && 0.0 <= price && 0.0 <= tax
    ensures 0.0 <= Worth(v, price, tax) <= Worth(v', price, tax)
    ensures Worth(v', price, tax) - Worth(v, price, tax) == Worth(v' - v, price, tax)
  {
    var rate := price * (1.0 + tax / 100.0);
    ProductNotNegative(price, 1.0 + tax / 100.0);
    ProductNotNegative(v, rate);
    ProductNotNegative(v' - v, rate);
    assert Worth(v, price, tax) == v * rate && Worth(v', price, tax) == v' * rate && Worth(v' - v, price, tax) == (v' - v) * rate;
  }

  lemma VolumeSame(w: World, w': World, c: nat)
    requires SameTables(w, w')
    ensures forall volume, mix, site :: ExactVolume(w', c, volume, mix, site) == ExactVolume(w, c, volume, mix, site)
    ensures forall mix :: UsablePrice(w', c, mix) == UsablePrice(w, c, mix)
  {
    hide Worth, RateOf;
  }

  lemma {:induction false} RateNotNegative(stations: seq<Station>, site: nat)
    requires OneRatePerSite(stations)
    ensures RateOf(stations, site) >= 0.0
  {
    if stations != [] && stations[0].site != site {
      assert forall i :: 0 <= i < |stations[1..]| ==> stations[1..][i] == stations[i + 1];
      RateNotNegative(stations[1..], site);
    }
  }

  lemma OwedNotNegative(w: World, c: nat, r: nat, late: bool)
    requires OneRatePerSite(w.stations) && r < |w.reservations|
    ensures ExactOwed(w, c, r, late) >= 0.0
  {
    RateNotNegative(w.stations, w.reservations[r].terms.site);
    WorthOrdered(0.0, Remaining(w, r), UsablePrice(w, c, w.reservations[r].terms.mix), RateOf(w.stations, w.reservations[r].terms.site));
  }

  /** One reservation's row changed; its loads are still valued the same, or are worth nothing. */
  lemma RowChanged(w: World, r: nat, res: Reservation, c: nat, late: bool)
    requires Inv(w) && r < |w.reservations|
    requires SameIdentity(res.terms, w.reservations[r].terms) || Released(w.tickets, r) <= 0.0
    ensures var w' := SetReservation(w, r, res);
            && Owed(w', c, late) == Owed(w, c, late) - ExactOwed(w, c, r, late) + ExactOwed(w', c, r, late)
            && CountTickets(w', c, |w.tickets|) == CountTickets(w, c, |w.tickets|)
  {
    var w' := SetReservation(w, r, res);
    ReleasedNonNegative(w.tickets, r);
    InvoicesSame(w, w', c, |w.invoices|);
    forall i | 0 <= i < |w.tickets| ensures ExactTicket(w', c, i) == ExactTicket(w, c, i) { TicketWorthSame(w, r, res, c, i); }
    assert ExactTickets(w', c) == ExactTickets(w, c);
    SumChanged(AllOwed(w, c, late), AllOwed(w', c, late), r);
    CountTicketsSame(w, r, res, c, |w.tickets|);
  }

  lemma TicketWorthSame(w: World, r: nat, res: Reservation, c: nat, i: nat)
    requires r < |w.reservations| && i < |w.tickets|
    requires SameIdentity(res.terms, w.reservations[r].terms)
             || (w.tickets[i].reservation == r && w.tickets[i].status != Void ==> Accepted(w.tickets[i]) == 0.0)
    ensures ExactTicket(SetReservation(w, r, res), c, i) == ExactTicket(w, c, i)
  {
  }

  lemma {:induction false} CountTicketsSame(w: World, r: nat, res: Reservation, c: nat, n: nat)
    requires r < |w.reservations| && n <= |w.tickets|
    requires SameIdentity(res.terms, w.reservations[r].terms)
             || forall i :: 0 <= i < |w.tickets| && w.tickets[i].reservation == r && w.tickets[i].status != Void ==> Accepted(w.tickets[i]) == 0.0
    ensures CountTickets(SetReservation(w, r, res), c, n) == CountTickets(w, c, n)
  {
    if n > 0 { CountTicketsSame(w, r, res, c, n - 1); }
  }

  predicate OwedStatus(res: Reservation, late: bool) {
    res.status == Confirmed || res.status == InProduction || (late && res.status == Delivered && !res.closedEarly)
  }

  /** What these steps do to their row: a final approval that stays is for the same terms, in a status no more owing than before. */
  lemma RowMoves(w: World, e: Event, late: bool)
    requires Inv(w) && (e.Edit? || e.Cancel? || e.Close? || e.ApproveInitial?) && CreditStep(w, e) != w
    ensures e.r < |w.reservations|
    ensures var w', r := CreditStep(w, e), e.r;
            && |w'.reservations| == |w.reservations| && w' == SetReservation(w, r, w'.reservations[r])
            && (SameIdentity(w'.reservations[r].terms, w.reservations[r].terms) || Released(w.tickets, r) <= 0.0)
            && (w'.reservations[r].final.Some? ==>
                  && w.reservations[r].final.Some? && w'.reservations[r].terms == w.reservations[r].terms
                  && (OwedStatus(w'.reservations[r], late) ==> OwedStatus(w.reservations[r], late)))
  {
    hide Released, Decided, HasTicket, TicketsOK, LoadsMatch;
    assert ReservationOK(w, e.r);
  }

  /** An edit, a hold, a cancellation or a close frees headroom, if anything. */
  lemma EditsOnlyFree(w: World, e: Event, c: nat, late: bool)
    requires Inv(w) && OneRatePerSite(w.stations) && (e.Edit? || e.Cancel? || e.Close? || e.ApproveInitial?)
    ensures Owed(CreditStep(w, e), c, late) <= Owed(w, c, late)
  {
    hide CreditStep, Released, Owed, ExactVolume, Inv, OneRatePerSite;
    var w' := CreditStep(w, e);
    if w' != w {
      RowMoves(w, e, late);
      var r := e.r;
      RowChanged(w, r, w'.reservations[r], c, late);
      OwedNotNegative(w, c, r, late);
      if StillOwed(w', c, r, late) {
        assert StillOwed(w, c, r, late) && Remaining(w', r) == Remaining(w, r);
        assert ExactOwed(w', c, r, late) == ExactOwed(w, c, r, late) by { VolumeSame(w, w', c); }
      }
    }
  }

  /** The commitments once the one decided on counts too. */
  lemma OthersAndTarget(w: World, w': World, c: nat, r: nat)
    requires r < |w.reservations| == |w'.reservations| && w' == SetReservation(w, r, w'.reservations[r])
    ensures Sum(ExactCommitments(w', c)) == Sum(ExactOthers(w, c, Some(r))) + ExactCommitment(w', c, r)
    ensures CountCommitments(w', c, |w.reservations|)
            == CountOthers(w, c, Some(r), |w.reservations|) + (if CountsReservation(w', c, r) && Remaining(w', r) > 0.0 then 1 else 0)
  {
    hide Worth, RateOf, Released;
    SumChanged(ExactOthers(w, c, Some(r)), ExactCommitments(w', c), r);
    CountsOthersAndTarget(w, w', c, r, |w.reservations|);
  }

  lemma {:induction false} CountsOthersAndTarget(w: World, w': World, c: nat, r: nat, n: nat)
    requires r < |w.reservations| == |w'.reservations| && n <= |w.reservations| && w' == SetReservation(w, r, w'.reservations[r])
    ensures CountCommitments(w', c, n)
            == CountOthers(w, c, Some(r), n) + (if r < n && CountsReservation(w', c, r) && Remaining(w', r) > 0.0 then 1 else 0)
  {
    if n > 0 { CountsOthersAndTarget(w, w', c, r, n - 1); }
  }

  /** What a step commits: nothing more, or no more than the decision it made allows. */
  predicate Bounded(w: World, e: Event, c: nat, late: bool) {
    var w' := CreditStep(w, e);
    || Owed(w', c, late) <= Owed(w, c, late)
    || (DecidedFor(w, e, c) && Owed(w', c, late) <= ToMinor(w.limits[c]) as real + Items(w', c) as real * 0.5 + (if late then LeftOver(w', c) else 0.0))
  }

  /** The approved reservation counts from now on, at the volume the decision was about. */
  lemma ApprovedCounts(w: World, w': World, c: nat, r: nat)
    requires Inv(w) && OneRatePerSite(w.stations) && Passes(w, c, Existing(r))
    requires r < |w.reservations| == |w'.reservations| && w' == SetReservation(w, r, w'.reservations[r])
    requires w'.reservations[r].terms == w.reservations[r].terms && CountsReservation(w', c, r)
    ensures Committed(w', c) <= ToMinor(w.limits[c]) as real + Items(w', c) as real * 0.5
  {
    hide Released, ExactVolume, Evaluate, ToMinor, CountsTicket;
    PassingBounds(w, c, Existing(r));
    OthersAndTarget(w, w', c, r);
    InvoicesSame(w, w', c, |w.invoices|);
    VolumeSame(w, w', c);
    forall i | 0 <= i < |w.tickets| ensures ExactTicket(w', c, i) == ExactTicket(w, c, i) { TicketWorthSame(w, r, w'.reservations[r], c, i); }
    assert ExactTickets(w', c) == ExactTickets(w, c);
    CountTicketsSame(w, r, w'.reservations[r], c, |w.tickets|);
    assert Remaining(w', r) == Remaining(w, r);
  }

  lemma ApprovalBounded(w: World, e: Event, c: nat, late: bool)
    requires Inv(w) && OneRatePerSite(w.stations) && e.ApproveFinal?
    ensures Bounded(w, e, c, late)
  {
    hide Released, ExactVolume, Evaluate, Owed, LeftOver, Committed, Items, ToMinor, Inv;
    var w', r := CreditStep(w, e), e.r;
    if w' != w {
      if DecidedFor(w, e, c) {
        ApprovedCounts(w, w', c, r);
        OwedIs(w', c, late);
      } else {
        RowChanged(w, r, w'.reservations[r], c, late);
        assert ExactOwed(w', c, r, late) == 0.0;
        OwedNotNegative(w, c, r, late);
      }
    }
  }

  lemma {:induction false} CountCommitmentsExtended(w: World, w': World, c: nat, n: nat)
    requires SameTables(w, w') && w'.tickets == w.tickets && w.reservations <= w'.reservations && n <= |w.reservations|
    ensures CountCommitments(w', c, n) == CountCommitments(w, c, n) == CountOthers(w, c, None, n)
  {
    if n > 0 { CountCommitmentsExtended(w, w', c, n - 1); }
  }

  lemma {:induction false} CountTicketsExtended(w: World, w': World, c: nat, n: nat)
    requires SameTables(w, w') && w'.tickets == w.tickets && w.reservations <= w'.reservations && n <= |w.tickets|
    requires forall i :: 0 <= i < |w.tickets| ==> w.tickets[i].reservation < |w.reservations|
    ensures CountTickets(w', c, n) == CountTickets(w, c, n)
  {
    if n > 0 { CountTicketsExtended(w, w', c, n - 1); }
  }

  lemma Booked(w: World, w': World, c: nat, late: bool)
    requires Inv(w) && SameTables(w, w') && w'.tickets == w.tickets
    requires |w'.reservations| == |w.reservations| + 1 && w.reservations <= w'.reservations
    ensures Owed(w', c, late) == Owed(w, c, late) + ExactOwed(w', c, |w.reservations|, late)
  {
    hide Released, ExactVolume, LoadsMatch;
    var n := |w.reservations|;
    InvoicesSame(w, w', c, |w.invoices|);
    VolumeSame(w, w', c);
    forall i | 0 <= i < |w.tickets| ensures ExactTicket(w', c, i) == ExactTicket(w, c, i) {
      assert w'.reservations[w.tickets[i].reservation] == w.reservations[w.tickets[i].reservation];
    }
    assert ExactTickets(w', c) == ExactTickets(w, c);
    forall r | 0 <= r < n ensures ExactOwed(w', c, r, late) == ExactOwed(w, c, r, late) {
      assert w'.reservations[r] == w.reservations[r];
    }
    assert AllOwed(w', c, late) == AllOwed(w, c, late) + [ExactOwed(w', c, n, late)];
    SumAppended(AllOwed(w, c, late), ExactOwed(w', c, n, late));
  }

  lemma BookingBounded(w: World, e: Event, c: nat, late: bool)
    requires Inv(w) && OneRatePerSite(w.stations) && e.Book?
    ensures Bounded(w, e, c, late)
  {
    hide ExactVolume, Evaluate, Owed, Committed, LeftOver, ToMinor;
    var w', n := CreditStep(w, e), |w.reservations|;
    if w' != w {
      Booked(w, w', c, late);
      if CountsReservation(w', c, n) {
        WalkInBounded(w, w', e.terms, c);
        OwedIs(w', c, late);
      }
    }
  }

  lemma WalkInBounded(w: World, w': World, terms: Terms, c: nat)
    requires Inv(w) && OneRatePerSite(w.stations) && Passes(w, c, NewBooking(terms.mix, terms.site, terms.volume)) && terms.volume > 0.0
    requires w'.reservations == w.reservations + [Reservation(terms, Confirmed, true, Some(terms), false)] && w' == w.(reservations := w'.reservations)
    requires CountsReservation(w', c, |w.reservations|)
    ensures Committed(w', c) <= ToMinor(w.limits[c]) as real + Items(w', c) as real * 0.5
  {
    hide ExactVolume, Evaluate, ToMinor, CountsTicket;
    var n := |w.reservations|;
    PassingBounds(w, c, NewBooking(terms.mix, terms.site, terms.volume));
    Booked(w, w', c, false);
    OwedIs(w, c, false);
    OwedIs(w', c, false);
    NothingReleased(w.tickets, n);
    InvoicesSame(w, w', c, |w.invoices|);
    VolumeSame(w, w', c);
    assert ExactOthers(w, c, None) == ExactCommitments(w, c);
    CountCommitmentsExtended(w, w', c, n);
    CountTicketsExtended(w, w', c, |w.tickets|);
  }

  lemma {:induction false} RateOfStation(stations: seq<Station>, i: nat)
    requires OneRatePerSite(stations) && i < |stations|
    ensures RateOf(stations, stations[i].site) == stations[i].taxPct
  {
    RateOfFrom(stations, stations[i].site);
  }

  /** What one ticket is worth per its accepted volume, if it counts for c at all. */
  function TicketRate(w: World, c: nat, r: nat, station: nat): real
    requires r < |w.reservations| && station < |w.stations|
  {
    if CustomersProject(w, c, w.reservations[r].terms.project)
    then 100.0 * UsablePrice(w, c, w.reservations[r].terms.mix) * (1.0 + w.stations[station].taxPct / 100.0) else 0.0
  }

  lemma TicketRateNotNegative(w: World, c: nat, r: nat, station: nat)
    requires OneRatePerSite(w.stations) && r < |w.reservations| && station < |w.stations|
    ensures TicketRate(w, c, r, station) >= 0.0
  {
    ProductNotNegative(100.0 * UsablePrice(w, c, w.reservations[r].terms.mix), 1.0 + w.stations[station].taxPct / 100.0);
  }

  /** One rate a site: concrete is worth the same loaded, or still to be loaded at the same site. */
  lemma WorthByRate(w: World, c: nat, r: nat, station: nat, volume: real)
    requires OneRatePerSite(w.stations) && r < |w.reservations| && station < |w.stations| && volume >= 0.0
    requires w.stations[station].site == w.reservations[r].terms.site
    requires CustomersProject(w, c, w.reservations[r].terms.project)
    ensures ExactVolume(w, c, volume, w.reservations[r].terms.mix, w.reservations[r].terms.site) == volume * TicketRate(w, c, r, station)
    ensures 100.0 * Worth(volume, UsablePrice(w, c, w.reservations[r].terms.mix), w.stations[station].taxPct) == volume * TicketRate(w, c, r, station)
  {
    RateOfStation(w.stations, station);
    var price, factor := UsablePrice(w, c, w.reservations[r].terms.mix), 1.0 + w.stations[station].taxPct / 100.0;
    assert 100.0 * (volume * price * factor) == volume * (100.0 * price * factor);
  }

  /** A ticket that still counted loses volume, or stops counting: what it gives back to its reservation is never worth more. */
  lemma TicketChanged(w: World, i: nat, t: Ticket, c: nat, late: bool)
    requires Inv(w) && OneRatePerSite(w.stations) && i < |w.tickets|
    requires t.reservation == w.tickets[i].reservation && t.mix == w.tickets[i].mix && t.station == w.tickets[i].station
    requires w.tickets[i].status != Void && !w.tickets[i].reversed && 0.0 <= Accepted(t) <= Accepted(w.tickets[i])
    ensures Owed(SetTicket(w, i, t), c, late) <= Owed(w, c, late)
  {
    hide Released, LoadsMatch, ExactVolume, Worth, UsablePrice;
    var w', r, station := SetTicket(w, i, t), t.reservation, t.station;
    InvoicesSame(w, w', c, |w.invoices|);
    VolumeSame(w, w', c);
    forall j | 0 <= j < |w.tickets| && j != i ensures ExactTicket(w', c, j) == ExactTicket(w, c, j) {}
    SumChanged(ExactTickets(w, c), ExactTickets(w', c), i);
    forall q | 0 <= q < |w.reservations| && q != r ensures ExactOwed(w', c, q, late) == ExactOwed(w, c, q, late) {
      ReleasedUpdated(w.tickets, i, t, q);
    }
    SumChanged(AllOwed(w, c, late), AllOwed(w', c, late), r);
    TicketTrade(w, i, t, c, late);
  }

  lemma NothingIsWorthless()
    ensures forall price, tax :: Worth(0.0, price, tax) == 0.0
  {}

  lemma TicketTrade(w: World, i: nat, t: Ticket, c: nat, late: bool)
    requires Inv(w) && OneRatePerSite(w.stations) && i < |w.tickets|
    requires t.reservation == w.tickets[i].reservation && t.mix == w.tickets[i].mix && t.station == w.tickets[i].station
    requires w.tickets[i].status != Void && !w.tickets[i].reversed && 0.0 <= Accepted(t) <= Accepted(w.tickets[i])
    ensures var w' := SetTicket(w, i, t);
            ExactTicket(w', c, i) + ExactOwed(w', c, t.reservation, late) <= ExactTicket(w, c, i) + ExactOwed(w, c, t.reservation, late)
  {
    hide Released, ExactVolume, Worth, UsablePrice;
    var w', was, r, station := SetTicket(w, i, t), w.tickets[i], t.reservation, t.station;
    assert ReservationOK(w, r);
    ReleasedUpdated(w.tickets, i, t, r);
    VolumeSame(w, w', c);
    TicketRateNotNegative(w, c, r, station);
    var rate := TicketRate(w, c, r, station);
    if CustomersProject(w, c, w.reservations[r].terms.project) && Accepted(was) > 0.0 {
      assert w.stations[station].site == w.reservations[r].terms.site;
      WorthByRate(w, c, r, station, Accepted(was));
      WorthByRate(w, c, r, station, Accepted(t));
      WorthByRate(w, c, r, station, Remaining(w, r));
      WorthByRate(w, c, r, station, Remaining(w', r));
      assert Remaining(w', r) - Remaining(w, r) == Share(was, r) - Share(t, r);
      var back := Share(was, r) - Share(t, r);
      assert Remaining(w', r) * rate == Remaining(w, r) * rate + back * rate;
      assert Accepted(t) * rate + (Accepted(was) - Accepted(t)) * rate == Accepted(was) * rate;
      assert Accepted(t) * rate >= 0.0;
    } else {
      assert forall price, tax :: Worth(0.0, price, tax) == 0.0 by { NothingIsWorthless(); }
      assert Remaining(w', r) == Remaining(w, r) || !CustomersProject(w, c, w.reservations[r].terms.project);
    }
  }

  /** The load's own ticket against what its reservation no longer commits. */
  lemma LoadTrade(w: World, t: Ticket, c: nat, late: bool)
    requires Inv(w) && OneRatePerSite(w.stations)
    requires t.reservation < |w.reservations| && t.station < |w.stations| && t.status == Open && !t.reversed && t.delivered == None
    requires w.stations[t.station].site == w.reservations[t.reservation].terms.site && 0.0 < t.volume <= Remaining(w, t.reservation)
    requires CustomersProject(w, c, w.reservations[t.reservation].terms.project) ==> StillOwed(w, c, t.reservation, late)
    ensures var w' := w.(tickets := w.tickets + [t]);
            ExactTicket(w', c, |w.tickets|) + ExactOwed(w', c, t.reservation, late) == ExactOwed(w, c, t.reservation, late)
  {
    hide Released, LoadsMatch, TicketsOK, ReservationOK, ExactVolume, Worth, UsablePrice;
    var w', r := w.(tickets := w.tickets + [t]), t.reservation;
    ReleasedExtended(w.tickets, t, r);
    VolumeSame(w, w', c);
    if CustomersProject(w, c, w.reservations[r].terms.project) {
      var rate := TicketRate(w, c, r, t.station);
      assert Remaining(w', r) == Remaining(w, r) - t.volume;
      WorthByRate(w, c, r, t.station, t.volume);
      WorthByRate(w, c, r, t.station, Remaining(w, r));
      WorthByRate(w, c, r, t.station, Remaining(w', r));
      hide TicketRate, Remaining;
      assert Remaining(w', r) * rate + t.volume * rate == Remaining(w, r) * rate;
    }
  }

  /** A load released against an approved booking: what the ticket is worth, the booking no longer is. */
  lemma LoadAdded(w: World, t: Ticket, c: nat, late: bool)
    requires Inv(w) && OneRatePerSite(w.stations)
    requires t.reservation < |w.reservations| && t.station < |w.stations| && t.status == Open && !t.reversed && t.delivered == None
    requires w.stations[t.station].site == w.reservations[t.reservation].terms.site && 0.0 < t.volume <= Remaining(w, t.reservation)
    requires CustomersProject(w, c, w.reservations[t.reservation].terms.project) ==> StillOwed(w, c, t.reservation, late)
    ensures Owed(w.(tickets := w.tickets + [t]), c, late) == Owed(w, c, late)
  {
    hide Released, LoadsMatch, ReservationOK, ExactVolume, Worth, UsablePrice, OneRatePerSite;
    var w', r := w.(tickets := w.tickets + [t]), t.reservation;
    InvoicesSame(w, w', c, |w.invoices|);
    VolumeSame(w, w', c);
    LoadTrade(w, t, c, late);
    forall i | 0 <= i < |w.tickets| ensures ExactTicket(w', c, i) == ExactTicket(w, c, i) {}
    assert ExactTickets(w', c) == ExactTickets(w, c) + [ExactTicket(w', c, |w.tickets|)];
    SumAppended(ExactTickets(w, c), ExactTicket(w', c, |w.tickets|));
    forall q | 0 <= q < |w.reservations| && q != r ensures ExactOwed(w', c, q, late) == ExactOwed(w, c, q, late) {
      ReleasedExtended(w.tickets, t, q);
    }
    hide ExactTicket, ExactOwed;
    SumChanged(AllOwed(w, c, late), AllOwed(w', c, late), r);
  }

  /** A release turns part of a commitment into a ticket of the same worth. */
  lemma ReleaseCommitsNothing(w: World, e: Event, c: nat, late: bool)
    requires Inv(w) && OneRatePerSite(w.stations) && e.Release?
    ensures Owed(CreditStep(w, e), c, late) == Owed(w, c, late)
  {
    hide Released, Owed, ExactVolume, Evaluate;
    var w', r := CreditStep(w, e), e.r;
    if w' != w {
      assert ReservationOK(w, r);
      var w1 := SetReservation(w, r, w.reservations[r].(status := InProduction));
      ReservationStepKeeps(w, r, w1.reservations[r]);
      RowChanged(w, r, w1.reservations[r], c, late);
      VolumeSame(w, w1, c);
      assert Remaining(w1, r) == Remaining(w, r);
      var t := w'.tickets[|w.tickets|];
      assert w' == w1.(tickets := w1.tickets + [t]);
      LoadAdded(w1, t, c, late);
    }
  }

  lemma TicketStepFrees(w: World, e: Event, c: nat, late: bool)
    requires Inv(w) && OneRatePerSite(w.stations) && (e.CompleteTicket? || e.CancelTicket? || e.ReverseTicket?)
    ensures Owed(CreditStep(w, e), c, late) <= Owed(w, c, late)
  {
    hide Owed, LoadsMatch, ReservationOK;
    var w' := CreditStep(w, e);
    if w' != w {
      var i, t := e.i, w'.tickets[e.i];
      assert w'.tickets == w.tickets[i := t];
      if !w.tickets[i].reversed { TicketChanged(w, i, t, c, late); }
    }
  }

  /** What settling a ticket's reservation does to its row: the approval stays, in a status no more owing than before. */
  lemma SettlingMoves(w: World, r: nat, late: bool)
    requires Inv(w) && r < |w.reservations| && Reconciled(w, r) != w
    requires late || w.reservations[r].status != Delivered || w.reservations[r].closedEarly
    ensures var w' := Reconciled(w, r);
            && |w'.reservations| == |w.reservations| && w' == SetReservation(w, r, w'.reservations[r])
            && w'.reservations[r].terms == w.reservations[r].terms
            && (w'.reservations[r].final.Some? ==>
                  w.reservations[r].final.Some? && (OwedStatus(w'.reservations[r], late) ==> OwedStatus(w.reservations[r], late)))
  {
    hide Released, IsDone, TicketsOK, LoadsMatch;
    assert ReservationOK(w, r);
  }

  lemma SettlingFrees(w: World, r: nat, c: nat, late: bool)
    requires Inv(w) && OneRatePerSite(w.stations)
    requires r < |w.reservations| ==> late || w.reservations[r].status != Delivered || w.reservations[r].closedEarly
    ensures Owed(Reconciled(w, r), c, late) <= Owed(w, c, late)
  {
    hide Released, Reconciled, Owed, ExactVolume, Inv, OneRatePerSite;
    var w' := Reconciled(w, r);
    if w' != w {
      assert r < |w.reservations| by { ReconciledChangesOne(w, r); }
      SettlingMoves(w, r, late);
      RowChanged(w, r, w'.reservations[r], c, late);
      OwedNotNegative(w, c, r, late);
      if StillOwed(w', c, r, late) {
        assert StillOwed(w, c, r, late) && Remaining(w', r) == Remaining(w, r);
        assert ExactOwed(w', c, r, late) == ExactOwed(w, c, r, late) by { VolumeSame(w, w', c); }
      }
    }
  }

  lemma ReconciledChangesOne(w: World, r: nat)
    ensures Reconciled(w, r) != w ==> r < |w.reservations|
  {
    hide IsDone;
  }

  /** A trip's end frees headroom, if anything; where nothing delivered has anything open, no booking is reopened. */
  lemma TripFrees(w: World, e: Event, c: nat, late: bool)
    requires Inv(w) && OneRatePerSite(w.stations) && (e.CloseTrip? || e.DecideMemo?) && (late || Settled(w))
    ensures Owed(CreditStep(w, e), c, late) <= Owed(w, c, late)
  {
    TripEventIs(w, e, Decided(w, e));
    if AfterTrip(w, e).Some? {
      hide Step, AfterTrip, Owed, LoadsMatch, ReservationOK, Reconciled, Inv, OneRatePerSite;
      var t := AfterTrip(w, e).value;
      var w1 := SetTicket(w, e.i, t);
      TicketChanged(w, e.i, t, c, late);
      assert w.tickets[e.i].reservation == t.reservation && !SettledAt(w, t.reservation);
      SettlingFrees(w1, t.reservation, c, late);
    }
  }

  lemma StepBounded(w: World, e: Event, c: nat, late: bool)
    requires Inv(w) && OneRatePerSite(w.stations) && (late || Settled(w))
    ensures Bounded(w, e, c, late)
  {
    hide Owed, LeftOver, Items, Evaluate, Inv, OneRatePerSite, Step, Settled;
    match e
    case Book(_, _) => BookingBounded(w, e, c, late);
    case ApproveFinal(_, _) => ApprovalBounded(w, e, c, late);
    case Release(_, _, _, _, _) => ReleaseCommitsNothing(w, e, c, late);
    case CompleteTicket(_) => TicketStepFrees(w, e, c, late);
    case CancelTicket(_) => TicketStepFrees(w, e, c, late);
    case ReverseTicket(_) => TicketStepFrees(w, e, c, late);
    case CloseTrip(_, _) => TripFrees(w, e, c, late);
    case DecideMemo(_, _) => TripFrees(w, e, c, late);
    case _ => EditsOnlyFree(w, e, c, late);
  }

  // ---- Main results -------------------------------------------------------------------------

  /** Every operation deciding credit for itself. */
  function CreditRun(w: World, es: seq<Event>): World {
    if es == [] then w else CreditStep(CreditRun(w, es[..|es| - 1]), es[|es| - 1])
  }

  lemma TablesStay(w: World, e: Event, withinLimit: bool)
    ensures SameTables(w, Step(w, e, withinLimit))
  {
    hide Released, IsDone, AfterTrip;
    if e.CloseTrip? || e.DecideMemo? {
      hide BookStep, EditStep, ApproveFinalStep, ReleaseStep, CancelStep, CloseStep;
    } else {
      hide TripStep, Reconciled;
    }
  }

  lemma {:induction false} CreditRunKeeps(w: World, es: seq<Event>)
    requires Inv(w) && OneRatePerSite(w.stations)
    ensures Inv(CreditRun(w, es)) && SameTables(w, CreditRun(w, es)) && (Settled(w) ==> Settled(CreditRun(w, es)))
  {
    hide Inv, Decided, Step, Settled;
    if es != [] {
      CreditRunKeeps(w, es[..|es| - 1]);
      var before, e := CreditRun(w, es[..|es| - 1]), es[|es| - 1];
      TablesStay(before, e, Decided(before, e));
      StepKeeps(before, e, Decided(before, e));
      if Settled(w) { StepSettles(before, e, Decided(before, e)); }
    }
  }

  /** The first k steps end in a decision for c that passed, and `amount` is within what that decision allows. */
  predicate AllowedAt(w: World, es: seq<Event>, c: nat, k: nat, amount: real, late: bool) {
    && 0 < k <= |es| && c in w.limits
    && DecidedFor(CreditRun(w, es[..k - 1]), es[k - 1], c)
    && amount <= ToMinor(w.limits[c]) as real + Items(CreditRun(w, es[..k]), c) as real * 0.5
                 + (if late then LeftOver(CreditRun(w, es[..k]), c) else 0.0)
  }

  lemma AllowedLater(w: World, es: seq<Event>, c: nat, k: nat, amount: real, amount': real, late: bool)
    requires |es| > 0 && AllowedAt(w, es[..|es| - 1], c, k, amount, late) && amount' <= amount
    ensures AllowedAt(w, es, c, k, amount', late)
  {
    hide DecidedFor, CreditRun, Items, LeftOver, ToMinor;
    var rest := es[..|es| - 1];
    assert rest[..k] == es[..k] && rest[..k - 1] == es[..k - 1];
  }

  lemma AllowedNow(w: World, es: seq<Event>, c: nat, late: bool)
    requires |es| > 0 && SameTables(w, CreditRun(w, es[..|es| - 1]))
    requires var before := CreditRun(w, es[..|es| - 1]);
             Bounded(before, es[|es| - 1], c, late) && Owed(CreditRun(w, es), c, late) > Owed(before, c, late)
    ensures AllowedAt(w, es, c, |es|, Owed(CreditRun(w, es), c, late), late)
  {
    hide CreditStep, Items, LeftOver, ToMinor, Owed;
    assert es[..|es|] == es;
  }

  lemma {:induction false} OwedCeiling(w: World, es: seq<Event>, c: nat, late: bool)
    requires Inv(w) && OneRatePerSite(w.stations) && (late || Settled(w))
    ensures var end := Owed(CreditRun(w, es), c, late);
            end <= Owed(w, c, late) || exists k :: AllowedAt(w, es, c, k, end, late)
  {
    hide Owed, Inv, CreditStep, OneRatePerSite, AllowedAt, Bounded, Settled;
    if es != [] {
      var rest := es[..|es| - 1];
      var before, end := CreditRun(w, rest), Owed(CreditRun(w, es), c, late);
      CreditRunKeeps(w, rest);
      OwedCeiling(w, rest, c, late);
      StepBounded(before, es[|es| - 1], c, late);
      if end > Owed(before, c, late) {
        AllowedNow(w, es, c, late);
      } else if end > Owed(w, c, late) {
        var k :| AllowedAt(w, rest, c, k, Owed(before, c, late), late);
        AllowedLater(w, es, c, k, Owed(before, c, late), end, late);
      }
    }
  }

  lemma {:induction false} LeftOverNotNegative(w: World, c: nat)
    requires OneRatePerSite(w.stations)
    ensures LeftOver(w, c) >= 0.0
  {
    forall r | 0 <= r < |w.reservations| ensures ExactLeftOver(w, c, r) >= 0.0 { OwedNotNegative(w, c, r, true); }
    NonNegativeSum(AllLeftOver(w, c));
  }

  lemma {:induction false} NonNegativeSum(xs: seq<real>)
    requires forall i :: 0 <= i < |xs| ==> xs[i] >= 0.0
    ensures Sum(xs) >= 0.0
  {
    if xs != [] { NonNegativeSum(xs[..|xs| - 1]); }
  }

  /**
   The ceiling. With prices, taxes and limit fixed and one tax rate a site, in
   any run of bookings, approvals, releases, edits, holds, cancellations, closes,
   ended trips and decided rejections: what the customer is committed to,
   unrounded, is no more than at the start, or no more than the limit plus half a
   minor unit for every item valued at some decision that passed.
   */
  lemma CreditCeiling(w: World, es: seq<Event>, c: nat)
    requires Inv(w) && Settled(w) && OneRatePerSite(w.stations)
    ensures var end := Committed(CreditRun(w, es), c);
            end <= Committed(w, c) || exists k :: AllowedAt(w, es, c, k, end, false)
  {
    hide Committed, Owed, LeftOver, Inv, CreditStep, AllowedAt, Settled;
    OwedCeiling(w, es, c, false);
    OwedIs(w, c, false);
    OwedIs(CreditRun(w, es), c, false);
  }

  /**
   The same from tables in which delivered bookings may still have trips or
   rejections open: then what such bookings had left over comes on top.
   */
  lemma CeilingWithLeftOver(w: World, es: seq<Event>, c: nat)
    requires Inv(w) && OneRatePerSite(w.stations)
    ensures var end := Committed(CreditRun(w, es), c);
            end <= Owed(w, c, true) || exists k :: AllowedAt(w, es, c, k, end, true)
  {
    hide Committed, Owed, LeftOver, Inv, CreditStep, AllowedAt;
    CreditRunKeeps(w, es);
    OwedCeiling(w, es, c, true);
    var end := CreditRun(w, es);
    OwedIs(end, c, true);
    LeftOverNotNegative(end, c);
    if Owed(end, c, true) > Owed(w, c, true) {
      var k :| AllowedAt(w, es, c, k, Owed(end, c, true), true);
      AllowedLess(w, es, c, k, Owed(end, c, true), Committed(end, c), true);
    }
  }

  lemma AllowedLess(w: World, es: seq<Event>, c: nat, k: nat, amount: real, amount': real, late: bool)
    requires AllowedAt(w, es, c, k, amount, late) && amount' <= amount
    ensures AllowedAt(w, es, c, k, amount', late)
  {
    hide DecidedFor, CreditRun, Items, LeftOver, ToMinor;
  }

  const Terms10 := Terms(1, 1, 10, 10.0)
  const Terms4 := Terms(1, 1, 10, 4.0)

  /** A booking of 10 already delivered, though 6 were loaded and a rejection of 1 is open: older rows look so. */
  const Short := Reservation(Terms10, Delivered, true, Some(Terms10), false)
  const Suspect := Ticket(0, 10, 0, 6.0, Complete, false, Some(6.0), Some(1.0))
  const Reduced := Suspect.(delivered := Some(5.0), memo := None)
  const Second := Reservation(Terms4, Confirmed, true, Some(Terms4), false)
  const Legacy := World([Short], [Suspect], [Station(1, 0.0, 0, true)], [], map[1 := 7], map[(7, 10) := 100.0], map[7 := 1000.0])

  lemma ReleasedOfOne(t: Ticket, r: nat)
    ensures Released([t], r) == Share(t, r)
  {
    assert [t][..0] == [] && Released([], r) == 0.0;
  }

  lemma LegacyHolds()
    ensures Inv(Legacy) && !Settled(Legacy) && OneRatePerSite(Legacy.stations)
  {
    ReleasedOfOne(Suspect, 0);
    assert ReservationOK(Legacy, 0);
    assert HasPendingMemo(Legacy.tickets, 0) by { assert Legacy.tickets[0].memo.Some?; }
    assert Legacy.reservations[0] == Short && !SettledAt(Legacy, 0);
  }

  lemma SecondPasses()
    ensures CreditStep(Legacy, Book(Terms4, true)) == Legacy.(reservations := [Short, Second])
  {
    var p := NewBooking(10, 1, 4.0);
    assert Tickets(Legacy, 7, 1) == Tally(60000, false, {0}) by {
      assert Tickets(Legacy, 7, 0) == Tally(0, false, {});
      assert Worth(6.0, 100.0, 0.0) == 600.0 && ToMinor(600.0) == 60000;
    }
    assert Commitments(Legacy, 7, None, 1) == Tally(60000, false, {0}) by {
      assert Commitments(Legacy, 7, None, 0) == Tickets(Legacy, 7, 1);
    }
    assert SiteRate(Legacy.stations, 1) == Some(0.0) by { assert Legacy.stations[..0] == []; assert SiteRate([], 1) == None; }
    assert SiteCurrencies(Legacy.stations, 1) == {0} by { assert Legacy.stations[0].currency in SiteCurrencies(Legacy.stations, 1); }
    assert Worth(4.0, 100.0, 0.0) == 400.0 && ToMinor(400.0) == 40000 && ToMinor(1000.0) == 100000;
    assert WithProposal(Legacy, 7, Tally(60000, false, {0}), p).minor == 100000;
    assert Passes(Legacy, 7, p);
  }

  lemma DecisionReopens()
    ensures CreditStep(Legacy.(reservations := [Short, Second]), DecideMemo(0, true))
            == Legacy.(reservations := [Short.(status := InProduction), Second], tickets := [Reduced])
  {
    ReleasedOfOne(Reduced, 0);
    var w := Legacy.(reservations := [Short, Second]);
    assert AfterTrip(w, DecideMemo(0, true)) == Some(Reduced);
    assert SetTicket(w, 0, Reduced).tickets == [Reduced];
    assert Reconciled(SetTicket(w, 0, Reduced), 0).reservations == [Short.(status := InProduction), Second];
  }

  /**
   Why the bookings must be settled to begin with: from older rows that are not,
   one passing decision and one approved rejection, which reopens a delivered
   booking without asking for credit, commit 1400.00 against a limit of 1000.00.
   */
  lemma ReopeningExceeds()
    ensures var es := [Book(Terms4, true), DecideMemo(0, true)];
            && Inv(Legacy) && !Settled(Legacy) && OneRatePerSite(Legacy.stations)
            && ToMinor(Legacy.limits[7]) == 100000 && Committed(Legacy, 7) == 60000.0
            && Committed(CreditRun(Legacy, es), 7) == 140000.0
  {
    LegacyHolds();
    SecondPasses();
    DecisionReopens();
    var es := [Book(Terms4, true), DecideMemo(0, true)];
    assert es[..1] == [Book(Terms4, true)] && es[..1][..0] == [];
    var end := Legacy.(reservations := [Short.(status := InProduction), Second], tickets := [Reduced]);
    assert CreditRun(Legacy, es) == end by { assert CreditRun(Legacy, []) == Legacy; hide CreditStep; }
    ReleasedOfOne(Suspect, 0);
    ReleasedOfOne(Reduced, 0);
    ReleasedOfOne(Reduced, 1);
    assert RateOf(Legacy.stations, 1) == 0.0;
    SumOf1(ExactTickets(Legacy, 7));
    SumOf1(ExactCommitments(Legacy, 7));
    SumOf1(ExactTickets(end, 7));
    SumOf2(ExactCommitments(end, 7));
    assert ExactTicket(end, 7, 0) == 50000.0 && ExactCommitment(end, 7, 0) == 50000.0 && ExactCommitment(end, 7, 1) == 40000.0;
  }

  lemma SumOf1(xs: seq<real>)
    requires |xs| == 1
    ensures Sum(xs) == xs[0]
  {
    assert xs[..0] == [] && Sum([]) == 0.0;
  }

  lemma SumOf2(xs: seq<real>)
    requires |xs| == 2
    ensures Sum(xs) == xs[0] + xs[1]
  {
    SumOf1(xs[..1]);
  }

  /** A load is taxed at no more than its booking was, and splitting the rounding adds one minor unit at most. */
  lemma RoundedSplit(volume: real, load: real, price: real, siteRate: real, stationRate: real)
    requires 0.0 <= load <= volume && 0.0 <= price && 0.0 <= stationRate <= siteRate
    ensures ToMinor(Worth(load, price, stationRate)) + ToMinor(Worth(volume - load, price, siteRate)) <= ToMinor(Worth(volume, price, siteRate)) + 1
  {
    var per, perStation := price * (1.0 + siteRate / 100.0), price * (1.0 + stationRate / 100.0);
    ProductNotNegative(price, (siteRate - stationRate) / 100.0);
    assert per - perStation == price * ((siteRate - stationRate) / 100.0);
    ProductNotNegative(load, per - perStation);
    assert Worth(load, price, stationRate) == load * perStation;
    assert Worth(volume - load, price, siteRate) == (volume - load) * per && Worth(volume, price, siteRate) == volume * per;
    assert load * perStation <= load * per;
    assert load * per + (volume - load) * per == volume * per;
  }

  function Rounded(volume: real, price: Option<real>, tax: Option<real>): real {
    if Valuable(price, tax) && volume > 0.0 then ToMinor(Worth(volume, price.value, tax.value)) as real else 0.0
  }

  function RoundedTicket(w: World, c: nat, i: nat): real
    requires i < |w.tickets|
  {
    if CountsTicket(w, c, i)
    then Rounded(Accepted(w.tickets[i]), PriceOf(w, c, w.reservations[w.tickets[i].reservation].terms.mix), Some(w.stations[w.tickets[i].station].taxPct))
    else 0.0
  }

  function RoundedCommitment(w: World, c: nat, r: nat): real
    requires r < |w.reservations|
  {
    if CountsReservation(w, c, r)
    then Rounded(Remaining(w, r), PriceOf(w, c, w.reservations[r].terms.mix), SiteRate(w.stations, w.reservations[r].terms.site))
    else 0.0
  }

  function RoundedTickets(w: World, c: nat): seq<real> {
    seq(|w.tickets|, i requires 0 <= i < |w.tickets| => RoundedTicket(w, c, i))
  }

  function RoundedCommitments(w: World, c: nat): seq<real> {
    seq(|w.reservations|, r requires 0 <= r < |w.reservations| => RoundedCommitment(w, c, r))
  }

  /** The exposure the decision compares with the limit. */
  function Exposure(w: World, c: nat): int {
    Commitments(w, c, None, |w.reservations|).minor
  }

  lemma {:induction false} TicketsRounded(w: World, c: nat, n: nat)
    requires n <= |w.tickets|
    ensures Tickets(w, c, n).minor as real == Invoices(w, c, |w.invoices|).minor as real + Sum(RoundedTickets(w, c)[..n])
  {
    var xs := RoundedTickets(w, c);
    if n == 0 {
      assert xs[..0] == [];
    } else {
      TicketsRounded(w, c, n - 1);
      assert xs[..n][..n - 1] == xs[..n - 1];
    }
  }

  lemma {:induction false} CommitmentsRounded(w: World, c: nat, n: nat)
    requires n <= |w.reservations|
    ensures Commitments(w, c, None, n).minor as real == Tickets(w, c, |w.tickets|).minor as real + Sum(RoundedCommitments(w, c)[..n])
  {
    var xs := RoundedCommitments(w, c);
    if n == 0 {
      assert xs[..0] == [];
    } else {
      CommitmentsRounded(w, c, n - 1);
      assert xs[..n][..n - 1] == xs[..n - 1];
    }
  }

  lemma ExposureIs(w: World, c: nat)
    ensures Exposure(w, c) as real == Invoices(w, c, |w.invoices|).minor as real + Sum(RoundedTickets(w, c)) + Sum(RoundedCommitments(w, c))
  {
    CommitmentsRounded(w, c, |w.reservations|);
    TicketsRounded(w, c, |w.tickets|);
    assert RoundedTickets(w, c)[..|w.tickets|] == RoundedTickets(w, c);
    assert RoundedCommitments(w, c)[..|w.reservations|] == RoundedCommitments(w, c);
  }

  lemma LoadRounded(w: World, w': World, c: nat, r: nat, t: Ticket)
    requires r < |w.reservations| == |w'.reservations| && SameTables(w, w') && w'.tickets == w.tickets + [t]
    requires t.reservation == r && t.station < |w.stations| && t.status == Open && !t.reversed && t.delivered == None
    requires w.stations[t.station].site == w.reservations[r].terms.site && w.stations[t.station].active && w.stations[t.station].taxPct >= 0.0
    requires 0.0 < t.volume <= Remaining(w, r) && Remaining(w', r) == Remaining(w, r) - t.volume
    requires w'.reservations[r].terms == w.reservations[r].terms && w'.reservations[r].final.Some? && w'.reservations[r].status == InProduction
    requires CustomersProject(w, c, w.reservations[r].terms.project) ==> CountsReservation(w, c, r)
    ensures RoundedTicket(w', c, |w.tickets|) + RoundedCommitment(w', c, r) <= RoundedCommitment(w, c, r) + 1.0
  {
    hide Worth, Remaining;
    var site := w.reservations[r].terms.site;
    var price, tax, rate := PriceOf(w, c, w.reservations[r].terms.mix), w.stations[t.station].taxPct, SiteRate(w.stations, site);
    assert rate.Some? by {
      if rate.None? { NoneActive(w.stations, site); }
    }
    SiteRateFrom(w.stations, site);
    assert tax <= rate.value;
    if price.Some? && price.value > 0.0 && CustomersProject(w, c, w.reservations[r].terms.project) {
      RoundedSplit(Remaining(w, r), t.volume, price.value, rate.value, tax);
      if Remaining(w', r) <= 0.0 {
        assert ToMinor(Worth(0.0, price.value, rate.value)) == 0 by { NothingIsWorthless(); }
      }
    }
  }

  /** Exposure after one ticket more, by its own value and the change at its reservation. */
  lemma ExposureAfterLoad(w: World, w': World, c: nat, r: nat, t: Ticket)
    requires r < |w.reservations| && SameTables(w, w') && w'.tickets == w.tickets + [t] && t.reservation == r
    requires w'.reservations == w.reservations[r := w.reservations[r].(status := InProduction)]
    ensures Exposure(w', c) as real
            == Exposure(w, c) as real + RoundedTicket(w', c, |w.tickets|) + RoundedCommitment(w', c, r) - RoundedCommitment(w, c, r)
  {
    hide Released, Worth, Exposure, Rounded, SiteRate, ToMinor;
    var n := |w.tickets|;
    ExposureIs(w, c);
    ExposureIs(w', c);
    InvoicesSame(w, w', c, |w.invoices|);
    forall i | 0 <= i < n ensures RoundedTicket(w', c, i) == RoundedTicket(w, c, i) {
      assert w'.tickets[i] == w.tickets[i];
    }
    forall q | 0 <= q < |w.reservations| && q != r ensures RoundedCommitment(w', c, q) == RoundedCommitment(w, c, q) {
      ReleasedExtended(w.tickets, t, q);
    }
    hide RoundedTicket, RoundedCommitment;
    assert RoundedTickets(w', c) == RoundedTickets(w, c) + [RoundedTicket(w', c, n)];
    SumAppended(RoundedTickets(w, c), RoundedTicket(w', c, n));
    SumChanged(RoundedCommitments(w, c), RoundedCommitments(w', c), r);
  }

  lemma LoadRaisesExposureByOne(w: World, w': World, c: nat, r: nat, t: Ticket)
    requires r < |w.reservations| && SameTables(w, w') && w'.tickets == w.tickets + [t]
    requires w'.reservations == w.reservations[r := w.reservations[r].(status := InProduction)]
    requires t.reservation == r && t.station < |w.stations| && t.status == Open && !t.reversed && t.delivered == None
    requires w.stations[t.station].site == w.reservations[r].terms.site && w.stations[t.station].active && w.stations[t.station].taxPct >= 0.0
    requires 0.0 < t.volume <= Remaining(w, r) && w.reservations[r].final.Some?
    requires w.reservations[r].status == Confirmed || w.reservations[r].status == InProduction
    ensures Exposure(w', c) <= Exposure(w, c) + 1
  {
    hide Released, Exposure, RoundedTicket, RoundedCommitment;
    ExposureAfterLoad(w, w', c, r, t);
    ReleasedExtended(w.tickets, t, r);
    LoadRounded(w, w', c, r, t);
  }

  /**
   Where the stations of a site tax differently, a release still raises no
   customer's rounded exposure by more than one minor unit: an unreleased
   volume is valued at the highest rate of its site's active stations.
   */
  lemma ReleaseRaisesExposureByOne(w: World, e: Event, c: nat)
    requires Inv(w) && e.Release? && forall i :: 0 <= i < |w.stations| ==> w.stations[i].taxPct >= 0.0
    ensures Exposure(CreditStep(w, e), c) <= Exposure(w, c) + 1
  {
    hide Released, Evaluate, ReservationOK, LoadsMatch, Exposure;
    var w', r := CreditStep(w, e), e.r;
    if w' != w {
      var t := w'.tickets[|w.tickets|];
      assert w'.tickets == w.tickets + [t];
      LoadRaisesExposureByOne(w, w', c, r, t);
    }
  }
}
