/**
 What the credit decision says, in the terms of the policy: sums over the rows
 themselves, what could be valued, and the currencies met.
 */
module CreditMeaning {
  import opened Wrappers
  import opened Numbers
  import opened Reservations
  import opened CreditPolicy
  import opened CreditCeiling

  /** Rounded to whole minor units, halves up. */
  function Minor(amount: real): int { (100.0 * amount + 0.5).Floor }

  predicate Valued(price: Option<real>, tax: Option<real>) {
    price.Some? && tax.Some? && 0.0 < price.value && 0.0 <= tax.value
  }

  function Part(volume: real, price: Option<real>, tax: Option<real>): real {
    if volume > 0.0 && Valued(price, tax) then Minor(volume * price.value * (1.0 + tax.value / 100.0)) as real else 0.0
  }

  function Price(w: World, c: nat, mix: nat): Option<real> {
    if (c, mix) in w.prices then Some(w.prices[(c, mix)]) else None
  }

  // ---- The rows that count, and for how much ------------------------------------------------

  function InvoicePart(w: World, c: nat, i: nat): real
    requires i < |w.invoices|
  {
    var invoice := w.invoices[i];
    var due := invoice.total - invoice.paid - invoice.credited;
    if invoice.customer == c && due > 0.0 then Minor(due) as real else 0.0
  }

  predicate OfCustomer(w: World, c: nat, r: nat) {
    r < |w.reservations| && w.reservations[r].terms.project in w.customerOf && w.customerOf[w.reservations[r].terms.project] == c
  }

  /** Loaded for the customer and not billed: neither cancelled nor taken back. */
  predicate Unbilled(w: World, c: nat, i: nat)
    requires i < |w.tickets|
  {
    var t := w.tickets[i];
    OfCustomer(w, c, t.reservation) && t.station < |w.stations| && (t.status == Open || t.status == Complete) && !t.reversed
  }

  function TicketPrice(w: World, c: nat, i: nat): Option<real>
    requires i < |w.tickets| && Unbilled(w, c, i)
  {
    Price(w, c, w.reservations[w.tickets[i].reservation].terms.mix)
  }

  function TicketPart(w: World, c: nat, i: nat): real
    requires i < |w.tickets|
  {
    var t := w.tickets[i];
    if Unbilled(w, c, i)
    then Part(if t.delivered.Some? then t.delivered.value else t.volume, TicketPrice(w, c, i), Some(w.stations[t.station].taxPct))
    else 0.0
  }

  predicate TicketValued(w: World, c: nat, i: nat)
    requires i < |w.tickets|
  {
    Unbilled(w, c, i) ==> Valued(TicketPrice(w, c, i), Some(w.stations[w.tickets[i].station].taxPct))
  }

  /** A booking that carries its final approval and is neither done nor on hold, other than the one decided on. */
  predicate Outstanding(w: World, c: nat, p: Proposal, r: nat) {
    && OfCustomer(w, c, r) && w.reservations[r].final.Some? && p != Existing(r)
    && (w.reservations[r].status == Confirmed || w.reservations[r].status == InProduction)
  }

  function Left(w: World, r: nat): real
    requires r < |w.reservations|
  {
    Max(0.0, w.reservations[r].terms.volume - Released(w.tickets, r))
  }

  function VolumePart(w: World, c: nat, volume: real, mix: nat, site: nat): real {
    Part(volume, Price(w, c, mix), SiteRate(w.stations, site))
  }

  predicate VolumeValued(w: World, c: nat, volume: real, mix: nat, site: nat) {
    volume > 0.0 ==> Valued(Price(w, c, mix), SiteRate(w.stations, site))
  }

  function BookingPart(w: World, c: nat, p: Proposal, r: nat): real
    requires r < |w.reservations|
  {
    if Outstanding(w, c, p, r) then VolumePart(w, c, Left(w, r), w.reservations[r].terms.mix, w.reservations[r].terms.site) else 0.0
  }

  predicate BookingValued(w: World, c: nat, p: Proposal, r: nat)
    requires r < |w.reservations|
  {
    Outstanding(w, c, p, r) ==> VolumeValued(w, c, Left(w, r), w.reservations[r].terms.mix, w.reservations[r].terms.site)
  }

  /** The volume proposed, its mix and its site. */
  function Asked(w: World, p: Proposal): (real, nat, nat)
    requires p.Existing? ==> p.r < |w.reservations|
  {
    match p
    case NewBooking(mix, site, volume) => (volume, mix, site)
    case Existing(r) => (Left(w, r), w.reservations[r].terms.mix, w.reservations[r].terms.site)
  }

  function InvoiceParts(w: World, c: nat): (xs: seq<real>)
    ensures |xs| == |w.invoices|
  {
    seq(|w.invoices|, i requires 0 <= i < |w.invoices| => InvoicePart(w, c, i))
  }

  function TicketParts(w: World, c: nat): (xs: seq<real>)
    ensures |xs| == |w.tickets|
  {
    seq(|w.tickets|, i requires 0 <= i < |w.tickets| => TicketPart(w, c, i))
  }

  function BookingParts(w: World, c: nat, p: Proposal): (xs: seq<real>)
    ensures |xs| == |w.reservations|
  {
    seq(|w.reservations|, r requires 0 <= r < |w.reservations| => BookingPart(w, c, p, r))
  }

  /** An active station of the site charges in this currency. */
  predicate SiteCharges(w: World, site: nat, currency: nat) {
    exists i :: 0 <= i < |w.stations| && w.stations[i].active && w.stations[i].site == site && w.stations[i].currency == currency
  }

  predicate InvoiceIn(w: World, c: nat, n: nat, currency: nat)
    requires n <= |w.invoices|
  {
    exists i :: 0 <= i < n && InvoicePart(w, c, i) > 0.0 && w.invoices[i].currency == currency
  }

  predicate TicketIn(w: World, c: nat, n: nat, currency: nat)
    requires n <= |w.tickets|
  {
    exists i :: 0 <= i < n && Unbilled(w, c, i) && w.stations[w.tickets[i].station].currency == currency
  }

  predicate BookingIn(w: World, c: nat, p: Proposal, n: nat, currency: nat)
    requires n <= |w.reservations|
  {
    exists r :: 0 <= r < n && Outstanding(w, c, p, r) && Left(w, r) > 0.0 && SiteCharges(w, w.reservations[r].terms.site, currency)
  }

  predicate TicketsValued(w: World, c: nat, n: nat)
    requires n <= |w.tickets|
  {
    forall i :: 0 <= i < n ==> TicketValued(w, c, i)
  }

  predicate BookingsValued(w: World, c: nat, p: Proposal, n: nat)
    requires n <= |w.reservations|
  {
    forall r :: 0 <= r < n ==> BookingValued(w, c, p, r)
  }

  // ---- The tally is just that ----------------------------------------------------------------

  lemma SiteCurrenciesAre(w: World, site: nat, currency: nat)
    ensures currency in SiteCurrencies(w.stations, site) <==> SiteCharges(w, site, currency)
  {}

  lemma {:induction false} InvoicesAre(w: World, c: nat, n: nat)
    requires n <= |w.invoices|
    ensures var t := Invoices(w, c, n);
            && t.minor as real == Sum(InvoiceParts(w, c)[..n]) && !t.unpriced
            && forall currency :: currency in t.currencies <==> InvoiceIn(w, c, n, currency)
  {
    var xs := InvoiceParts(w, c);
    if n == 0 {
      assert xs[..0] == [];
    } else {
      InvoicesAre(w, c, n - 1);
      assert xs[..n][..n - 1] == xs[..n - 1];
      var invoice, before, t := w.invoices[n - 1], Invoices(w, c, n - 1), Invoices(w, c, n);
      assert InvoicePart(w, c, n - 1) == if invoice.customer == c then Max(0.0, ToMinor(AmountDue(invoice)) as real) else 0.0;
      forall currency ensures currency in t.currencies <==> InvoiceIn(w, c, n, currency) {
        assert InvoiceIn(w, c, n, currency) <==> InvoiceIn(w, c, n - 1, currency) || (InvoicePart(w, c, n - 1) > 0.0 && invoice.currency == currency);
      }
    }
  }

  lemma TicketCounts(w: World, c: nat, i: nat)
    requires i < |w.tickets|
    ensures CountsTicket(w, c, i) <==> Unbilled(w, c, i)
  {}

  lemma PartIs(t: Tally, volume: real, price: Option<real>, tax: Option<real>)
    ensures AddValue(t, volume, price, tax) == t.(minor := t.minor + Part(volume, price, tax).Floor, unpriced := t.unpriced || !Valued(price, tax))
    ensures Part(volume, price, tax) == Part(volume, price, tax).Floor as real
  {}

  lemma {:induction false} TicketsAre(w: World, c: nat, n: nat)
    requires n <= |w.tickets|
    ensures var t := Tickets(w, c, n);
            && t.minor as real == Sum(InvoiceParts(w, c)) + Sum(TicketParts(w, c)[..n])
            && (t.unpriced <==> !TicketsValued(w, c, n))
            && forall currency :: currency in t.currencies <==> InvoiceIn(w, c, |w.invoices|, currency) || TicketIn(w, c, n, currency)
  {
    var xs := TicketParts(w, c);
    if n == 0 {
      InvoicesAre(w, c, |w.invoices|);
      assert InvoiceParts(w, c)[..|w.invoices|] == InvoiceParts(w, c) && xs[..0] == [];
    } else {
      TicketsAre(w, c, n - 1);
      assert xs[..n][..n - 1] == xs[..n - 1];
      hide Part, Valued, AddValue, InvoiceIn, InvoiceParts;
      OneTicket(w, c, Tickets(w, c, n - 1), n - 1);
    }
  }

  lemma OneTicket(w: World, c: nat, t: Tally, i: nat)
    requires i < |w.tickets|
    ensures var t' := AddTicket(w, c, t, i);
            && t'.minor as real == t.minor as real + TicketPart(w, c, i)
            && (t'.unpriced <==> t.unpriced || !TicketValued(w, c, i))
            && forall currency :: currency in t'.currencies <==>
                 currency in t.currencies || (Unbilled(w, c, i) && w.stations[w.tickets[i].station].currency == currency)
  {
    TicketCounts(w, c, i);
    if Unbilled(w, c, i) {
      var ticket := w.tickets[i];
      PartIs(t, if ticket.delivered.Some? then ticket.delivered.value else ticket.volume, TicketPrice(w, c, i), Some(w.stations[ticket.station].taxPct));
    }
  }

  lemma OneVolume(w: World, c: nat, t: Tally, volume: real, mix: nat, site: nat)
    ensures var t' := AddCommitment(w, c, t, volume, mix, site);
            && t'.minor as real == t.minor as real + VolumePart(w, c, volume, mix, site)
            && (t'.unpriced <==> t.unpriced || !VolumeValued(w, c, volume, mix, site))
            && forall currency :: currency in t'.currencies <==>
                 currency in t.currencies || (volume > 0.0 && SiteCharges(w, site, currency))
  {
    PartIs(t, volume, Price(w, c, mix), SiteRate(w.stations, site));
    forall currency { SiteCurrenciesAre(w, site, currency); }
  }

  lemma {:induction false} BookingsAre(w: World, c: nat, p: Proposal, n: nat)
    requires n <= |w.reservations|
    ensures var t := Commitments(w, c, TargetOf(p), n);
            && t.minor as real == Sum(InvoiceParts(w, c)) + Sum(TicketParts(w, c)) + Sum(BookingParts(w, c, p)[..n])
            && (t.unpriced <==> !TicketsValued(w, c, |w.tickets|) || !BookingsValued(w, c, p, n))
            && forall currency :: currency in t.currencies <==>
                 InvoiceIn(w, c, |w.invoices|, currency) || TicketIn(w, c, |w.tickets|, currency) || BookingIn(w, c, p, n, currency)
  {
    var xs := BookingParts(w, c, p);
    hide Part, Valued, VolumeValued, InvoiceIn, TicketIn, InvoiceParts, TicketParts, TicketsValued, AddCommitment, SiteCharges, Released;
    if n == 0 {
      TicketsAre(w, c, |w.tickets|);
      assert TicketParts(w, c)[..|w.tickets|] == TicketParts(w, c) && xs[..0] == [];
    } else {
      BookingsAre(w, c, p, n - 1);
      assert xs[..n][..n - 1] == xs[..n - 1];
      var before, r := Commitments(w, c, TargetOf(p), n - 1), n - 1;
      OneVolume(w, c, before, Left(w, r), w.reservations[r].terms.mix, w.reservations[r].terms.site);
      assert CountsReservation(w, c, r) && TargetOf(p) != Some(r) <==> Outstanding(w, c, p, r);
      assert BookingsValued(w, c, p, n) <==> BookingsValued(w, c, p, n - 1) && BookingValued(w, c, p, r);
      forall currency
        ensures BookingIn(w, c, p, n, currency) <==>
                  BookingIn(w, c, p, n - 1, currency)
                  || (Outstanding(w, c, p, r) && Left(w, r) > 0.0 && SiteCharges(w, w.reservations[r].terms.site, currency))
      {}
    }
  }

  // ---- Main result ------------------------------------------------------------------------

  /** There is a customer to decide for, and the reservation proposed is that customer's. */
  predicate Decidable(w: World, c: nat, p: Proposal) {
    c in w.limits && (p.Existing? ==> OfCustomer(w, c, p.r))
  }

  /** What the customer is in for already, in minor units. */
  function Exposed(w: World, c: nat, p: Proposal): real {
    Sum(InvoiceParts(w, c)) + Sum(TicketParts(w, c)) + Sum(BookingParts(w, c, p))
  }

  /** Every ticket, every outstanding booking and the proposal has a price and a tax rate; a new booking has a volume. */
  predicate AllValued(w: World, c: nat, p: Proposal)
    requires Decidable(w, c, p)
  {
    && TicketsValued(w, c, |w.tickets|) && BookingsValued(w, c, p, |w.reservations|)
    && (p.NewBooking? ==> p.volume > 0.0)
    && VolumeValued(w, c, Asked(w, p).0, Asked(w, p).1, Asked(w, p).2)
  }

  predicate Met(w: World, c: nat, p: Proposal, currency: nat)
    requires Decidable(w, c, p)
  {
    || InvoiceIn(w, c, |w.invoices|, currency) || TicketIn(w, c, |w.tickets|, currency) || BookingIn(w, c, p, |w.reservations|, currency)
    || (Asked(w, p).0 > 0.0 && SiteCharges(w, Asked(w, p).2, currency))
  }

  /**
   The decision, exactly. It is within the limit if and only if the limit is above
   nothing, everything could be valued, no two currencies meet, what is due, loaded
   and booked stays under the limit, and with the proposal does not pass it.
   */
  lemma WithinLimitExactly(w: World, c: nat, p: Proposal)
    ensures Evaluate(w, c, p).Some? <==> Decidable(w, c, p)
    ensures Passes(w, c, p) <==>
              && Decidable(w, c, p) && AllValued(w, c, p)
              && (forall a, b :: Met(w, c, p, a) && Met(w, c, p, b) ==> a == b)
              && var limit := Minor(w.limits[c]) as real;
              && 0.0 < limit && Exposed(w, c, p) < limit
              && Exposed(w, c, p) + VolumePart(w, c, Asked(w, p).0, Asked(w, p).1, Asked(w, p).2) <= limit
  {
    hide Tickets, Invoices, Commitments, AddCommitment, VolumePart, VolumeValued, BookingsValued, TicketsValued, InvoiceIn, TicketIn, BookingIn,
      SiteCharges, InvoiceParts, TicketParts, BookingParts, Released, Left;
    if Decidable(w, c, p) {
      var t := Commitments(w, c, TargetOf(p), |w.reservations|);
      BookingsAre(w, c, p, |w.reservations|);
      assert BookingParts(w, c, p)[..|w.reservations|] == BookingParts(w, c, p);
      OneVolume(w, c, t, Asked(w, p).0, Asked(w, p).1, Asked(w, p).2);
      var all := AddCommitment(w, c, t, Asked(w, p).0, Asked(w, p).1, Asked(w, p).2);
      assert forall currency :: currency in all.currencies <==> Met(w, c, p, currency);
      AtMostOne(all.currencies);
      LeftIs(w, p);
      if !(p.NewBooking? && p.volume <= 0.0) { assert WithProposal(w, c, t, p) == all; }
    }
  }

  lemma LeftIs(w: World, p: Proposal)
    ensures p.Existing? && p.r < |w.reservations| ==> Left(w, p.r) == Remaining(w, p.r)
  {}

  lemma AtMostOne(s: set<nat>)
    ensures |s| <= 1 <==> forall a, b :: a in s && b in s ==> a == b
  {
    if forall a, b :: a in s && b in s ==> a == b {
      if s != {} {
        var x :| x in s;
        assert s == {x};
      }
    } else {
      var a, b :| a in s && b in s && a != b;
      assert s == {a, b} + (s - {a, b});
    }
  }
}
