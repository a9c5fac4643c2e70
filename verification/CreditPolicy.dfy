/** The one credit decision: what a customer is already committed to, in minor units, against the limit. */
module CreditPolicy {
  import opened Wrappers
  import opened Numbers
  import opened Reservations

  /** Math.round(amount * 100). */
  function ToMinor(amount: real): int {
    (amount * 100.0 + 0.5).Floor
  }

  datatype Decision = Decision(withinLimit: bool, exposureMinor: int, proposedMinor: int, limitMinor: int, unpriced: bool, mixedCurrency: bool)

  function DecideCredit(exposureMinor: int, proposedMinor: int, limitMinor: int, unpriced: bool, mixedCurrency: bool): Decision {
    var within := limitMinor > 0 && !unpriced && !mixedCurrency && exposureMinor < limitMinor && exposureMinor + proposedMinor <= limitMinor;
    Decision(within, exposureMinor, proposedMinor, limitMinor, unpriced, mixedCurrency)
  }

  datatype Proposal = NewBooking(mix: nat, site: nat, volume: real) | Existing(r: nat)

  /** What the loops have come to: exposure so far, whether anything could not be valued, the currencies met. */
  datatype Tally = Tally(minor: int, unpriced: bool, currencies: set<nat>)

  function PriceOf(w: World, c: nat, mix: nat): Option<real> {
    if (c, mix) in w.prices then Some(w.prices[(c, mix)]) else None
  }

  /** The highest rate among the site's active stations. */
  function SiteRate(stations: seq<Station>, site: nat): Option<real> {
    if stations == [] then None
    else
      var s, before := stations[|stations| - 1], SiteRate(stations[..|stations| - 1], site);
      if s.site != site || !s.active then before
      else Some(if before.Some? then Max(before.value, s.taxPct) else s.taxPct)
  }

  function SiteCurrencies(stations: seq<Station>, site: nat): set<nat> {
    set i | 0 <= i < |stations| && stations[i].site == site && stations[i].active :: stations[i].currency
  }

  /** Value of a volume, tax included. */
  function Worth(volume: real, price: real, taxPct: real): real {
    volume * price * (1.0 + taxPct / 100.0)
  }

  predicate Valuable(price: Option<real>, tax: Option<real>) {
    price.Some? && price.value > 0.0 && tax.Some? && tax.value >= 0.0
  }

  function AddValue(t: Tally, volume: real, price: Option<real>, tax: Option<real>): Tally {
    if !Valuable(price, tax) then t.(unpriced := true)
    else if volume <= 0.0 then t
    else t.(minor := t.minor + ToMinor(Worth(volume, price.value, tax.value)))
  }

  /** An unreleased volume at a site; none at all needs neither a price nor a station. */
  function AddCommitment(w: World, c: nat, t: Tally, volume: real, mix: nat, site: nat): Tally {
    if volume <= 0.0 then t
    else AddValue(t.(currencies := t.currencies + SiteCurrencies(w.stations, site)), volume, PriceOf(w, c, mix), SiteRate(w.stations, site))
  }

  /** invoiceAmountDue. */
  function AmountDue(invoice: Invoice): real {
    Max(0.0, invoice.total - invoice.paid - invoice.credited)
  }

  function AddInvoice(t: Tally, invoice: Invoice): Tally {
    if ToMinor(AmountDue(invoice)) <= 0 then t
    else t.(minor := t.minor + ToMinor(AmountDue(invoice)), currencies := t.currencies + {invoice.currency})
  }

  predicate CustomersProject(w: World, c: nat, project: nat) {
    project in w.customerOf && w.customerOf[project] == c
  }

  /** A ticket still to be billed: not cancelled, not reversed. */
  predicate CountsTicket(w: World, c: nat, i: nat)
    requires i < |w.tickets|
  {
    var t := w.tickets[i];
    && t.reservation < |w.reservations| && t.station < |w.stations|
    && CustomersProject(w, c, w.reservations[t.reservation].terms.project) && t.status != Void && !t.reversed
  }

  /** A booking counts while it carries its final approval. */
  predicate CountsReservation(w: World, c: nat, r: nat)
    requires r < |w.reservations|
  {
    var res := w.reservations[r];
    CustomersProject(w, c, res.terms.project) && (res.status == Confirmed || res.status == InProduction) && res.final.Some?
  }

  function AddTicket(w: World, c: nat, t: Tally, i: nat): Tally
    requires i < |w.tickets|
  {
    if !CountsTicket(w, c, i) then t
    else
      var ticket := w.tickets[i];
      var station := w.stations[ticket.station];
      AddValue(t.(currencies := t.currencies + {station.currency}), Accepted(ticket),
               PriceOf(w, c, w.reservations[ticket.reservation].terms.mix), Some(station.taxPct))
  }

  function AddReservation(w: World, c: nat, t: Tally, target: Option<nat>, r: nat): Tally
    requires r < |w.reservations|
  {
    if !CountsReservation(w, c, r) || target == Some(r) then t
    else AddCommitment(w, c, t, Remaining(w, r), w.reservations[r].terms.mix, w.reservations[r].terms.site)
  }

  function Invoices(w: World, c: nat, n: nat): Tally
    requires n <= |w.invoices|
  {
    if n == 0 then Tally(0, false, {})
    else if w.invoices[n - 1].customer == c then AddInvoice(Invoices(w, c, n - 1), w.invoices[n - 1])
    else Invoices(w, c, n - 1)
  }

  function Tickets(w: World, c: nat, n: nat): Tally
    requires n <= |w.tickets|
  {
    if n == 0 then Invoices(w, c, |w.invoices|) else AddTicket(w, c, Tickets(w, c, n - 1), n - 1)
  }

  function Commitments(w: World, c: nat, target: Option<nat>, n: nat): Tally
    requires n <= |w.reservations|
  {
    if n == 0 then Tickets(w, c, |w.tickets|) else AddReservation(w, c, Commitments(w, c, target, n - 1), target, n - 1)
  }

  /** The tally with the proposal in it, and the proposal's own part. */
  function WithProposal(w: World, c: nat, t: Tally, p: Proposal): Tally {
    match p
    case NewBooking(mix, site, volume) => if volume <= 0.0 then t.(unpriced := true) else AddCommitment(w, c, t, volume, mix, site)
    case Existing(r) =>
      if r < |w.reservations| then AddCommitment(w, c, t, Remaining(w, r), w.reservations[r].terms.mix, w.reservations[r].terms.site) else t
  }

  function TargetOf(p: Proposal): Option<nat> {
    if p.Existing? then Some(p.r) else None
  }

  /** No decision for a customer, or a reservation of that customer, that is not on file. */
  function Evaluate(w: World, c: nat, p: Proposal): Option<Decision> {
    if c !in w.limits then None
    else if p.Existing? && !(p.r < |w.reservations| && CustomersProject(w, c, w.reservations[p.r].terms.project)) then None
    else
      var t := Commitments(w, c, TargetOf(p), |w.reservations|);
      var all := WithProposal(w, c, t, p);
      Some(DecideCredit(t.minor, all.minor - t.minor, ToMinor(w.limits[c]), all.unpriced, |all.currencies| > 1))
  }

  method EvaluateCustomerCredit(w: World, c: nat, p: Proposal) returns (decision: Option<Decision>)
    ensures decision == Evaluate(w, c, p)
  {
    if c !in w.limits { return None; }
    if p.Existing? && !(p.r < |w.reservations| && CustomersProject(w, c, w.reservations[p.r].terms.project)) { return None; }
    var exposureMinor, unpriced, currencies := 0, false, {};
    for i := 0 to |w.invoices|
      invariant Tally(exposureMinor, unpriced, currencies) == Invoices(w, c, i)
    {
      var dueMinor := ToMinor(AmountDue(w.invoices[i]));
      if w.invoices[i].customer == c && dueMinor > 0 {
        currencies := currencies + {w.invoices[i].currency};
        exposureMinor := exposureMinor + dueMinor;
      }
    }
    for i := 0 to |w.tickets|
      invariant Tally(exposureMinor, unpriced, currencies) == Tickets(w, c, i)
    {
      if CountsTicket(w, c, i) {
        var ticket := w.tickets[i];
        currencies := currencies + {w.stations[ticket.station].currency};
        var price, tax := PriceOf(w, c, w.reservations[ticket.reservation].terms.mix), Some(w.stations[ticket.station].taxPct);
        if !Valuable(price, tax) { unpriced := true; }
        else if Accepted(ticket) > 0.0 { exposureMinor := exposureMinor + ToMinor(Worth(Accepted(ticket), price.value, tax.value)); }
      }
    }
    for r := 0 to |w.reservations|
      invariant Tally(exposureMinor, unpriced, currencies) == Commitments(w, c, TargetOf(p), r)
    {
      if CountsReservation(w, c, r) && TargetOf(p) != Some(r) {
        var t := AddCommitment(w, c, Tally(exposureMinor, unpriced, currencies), Remaining(w, r), w.reservations[r].terms.mix, w.reservations[r].terms.site);
        exposureMinor, unpriced, currencies := t.minor, t.unpriced, t.currencies;
      }
    }
    var all := WithProposal(w, c, Tally(exposureMinor, unpriced, currencies), p);
    return Some(DecideCredit(exposureMinor, all.minor - exposureMinor, ToMinor(w.limits[c]), all.unpriced, |all.currencies| > 1));
  }

  // ---- What is really committed -----------------------------------------------------------

  /** Rounding gains or loses half a minor unit at most. */
  lemma RoundingIsHalf(amount: real)
    ensures amount * 100.0 - 0.5 < ToMinor(amount) as real <= amount * 100.0 + 0.5
  {}

  function Sum(xs: seq<real>): real {
    if xs == [] then 0.0 else Sum(xs[..|xs| - 1]) + xs[|xs| - 1]
  }

  lemma {:induction false} SumChanged(xs: seq<real>, ys: seq<real>, i: nat)
    requires |xs| == |ys| && i < |xs| && forall j :: 0 <= j < |xs| && j != i ==> xs[j] == ys[j]
    ensures Sum(ys) == Sum(xs) - xs[i] + ys[i]
  {
    var n := |xs| - 1;
    if i == n { assert xs[..n] == ys[..n]; } else { SumChanged(xs[..n], ys[..n], i); }
  }

  lemma {:induction false} SumOrdered(xs: seq<real>, ys: seq<real>)
    requires |xs| == |ys| && forall j :: 0 <= j < |xs| ==> ys[j] <= xs[j]
    ensures Sum(ys) <= Sum(xs)
  {
    if xs != [] { SumOrdered(xs[..|xs| - 1], ys[..|ys| - 1]); }
  }

  lemma SumAppended(xs: seq<real>, x: real)
    ensures Sum(xs + [x]) == Sum(xs) + x
  {
    assert (xs + [x])[..|xs|] == xs;
  }

  /** A price that can be used, nothing otherwise. */
  function UsablePrice(w: World, c: nat, mix: nat): real {
    if (c, mix) in w.prices && w.prices[(c, mix)] > 0.0 then w.prices[(c, mix)] else 0.0
  }

  /** The site's rate, from whichever of its stations; they agree where there is one rate per site. */
  function RateOf(stations: seq<Station>, site: nat): real {
    if stations == [] then 0.0 else if stations[0].site == site then stations[0].taxPct else RateOf(stations[1..], site)
  }

  ghost predicate OneRatePerSite(stations: seq<Station>) {
    && (forall i :: 0 <= i < |stations| ==> stations[i].taxPct >= 0.0)
    && forall i, j :: 0 <= i < |stations| && 0 <= j < |stations| && stations[i].site == stations[j].site ==> stations[i].taxPct == stations[j].taxPct
  }

  /** In minor units, unrounded. */
  function ExactTicket(w: World, c: nat, i: nat): real
    requires i < |w.tickets|
  {
    if CountsTicket(w, c, i) then
      100.0 * Worth(Max(0.0, Accepted(w.tickets[i])), UsablePrice(w, c, w.reservations[w.tickets[i].reservation].terms.mix), w.stations[w.tickets[i].station].taxPct)
    else 0.0
  }

  function ExactVolume(w: World, c: nat, volume: real, mix: nat, site: nat): real {
    100.0 * Worth(Max(0.0, volume), UsablePrice(w, c, mix), RateOf(w.stations, site))
  }

  function ExactCommitment(w: World, c: nat, r: nat): real
    requires r < |w.reservations|
  {
    if CountsReservation(w, c, r) then ExactVolume(w, c, Remaining(w, r), w.reservations[r].terms.mix, w.reservations[r].terms.site) else 0.0
  }

  function ExactTickets(w: World, c: nat): seq<real> {
    seq(|w.tickets|, i requires 0 <= i < |w.tickets| => ExactTicket(w, c, i))
  }

  function ExactCommitments(w: World, c: nat): seq<real> {
    seq(|w.reservations|, r requires 0 <= r < |w.reservations| => ExactCommitment(w, c, r))
  }

  /** What one invoice still asks for, less than nothing counting as nothing. */
  function ExactInvoice(w: World, c: nat, i: nat): real
    requires i < |w.invoices|
  {
    var invoice := w.invoices[i];
    if invoice.customer == c && invoice.total - invoice.paid - invoice.credited > 0.0
    then 100.0 * (invoice.total - invoice.paid - invoice.credited) else 0.0
  }

  function ExactInvoices(w: World, c: nat): seq<real> {
    seq(|w.invoices|, i requires 0 <= i < |w.invoices| => ExactInvoice(w, c, i))
  }

  /** Everything the customer is committed to, to the last fraction. */
  function Committed(w: World, c: nat): real {
    Sum(ExactInvoices(w, c)) + Sum(ExactTickets(w, c)) + Sum(ExactCommitments(w, c))
  }

  /** A commitment, or (`late`) what would be one again if a booking settled as delivered were reopened. */
  predicate StillOwed(w: World, c: nat, r: nat, late: bool)
    requires r < |w.reservations|
  {
    var res := w.reservations[r];
    CountsReservation(w, c, r)
    || (late && CustomersProject(w, c, res.terms.project) && res.status == Delivered && !res.closedEarly && res.final.Some?)
  }

  function ExactOwed(w: World, c: nat, r: nat, late: bool): real
    requires r < |w.reservations|
  {
    if StillOwed(w, c, r, late) then ExactVolume(w, c, Remaining(w, r), w.reservations[r].terms.mix, w.reservations[r].terms.site) else 0.0
  }

  /** The part of it the credit decision does not see. */
  function ExactLeftOver(w: World, c: nat, r: nat): real
    requires r < |w.reservations|
  {
    ExactOwed(w, c, r, true) - ExactCommitment(w, c, r)
  }

  function AllOwed(w: World, c: nat, late: bool): seq<real> {
    seq(|w.reservations|, r requires 0 <= r < |w.reservations| => ExactOwed(w, c, r, late))
  }

  function AllLeftOver(w: World, c: nat): seq<real> {
    seq(|w.reservations|, r requires 0 <= r < |w.reservations| => ExactLeftOver(w, c, r))
  }

  function Owed(w: World, c: nat, late: bool): real {
    Sum(ExactInvoices(w, c)) + Sum(ExactTickets(w, c)) + Sum(AllOwed(w, c, late))
  }

  function LeftOver(w: World, c: nat): real { Sum(AllLeftOver(w, c)) }

  lemma {:induction false} SumSplits(xs: seq<real>, ys: seq<real>, zs: seq<real>)
    requires |xs| == |ys| == |zs| && forall i :: 0 <= i < |xs| ==> xs[i] == ys[i] + zs[i]
    ensures Sum(xs) == Sum(ys) + Sum(zs)
  {
    if xs != [] { SumSplits(xs[..|xs| - 1], ys[..|ys| - 1], zs[..|zs| - 1]); }
  }

  /** What is owed is what is committed and, `late`, what settled deliveries left over. */
  lemma OwedIs(w: World, c: nat, late: bool)
    ensures Owed(w, c, late) == Committed(w, c) + (if late then LeftOver(w, c) else 0.0)
  {
    if late {
      SumSplits(AllOwed(w, c, true), ExactCommitments(w, c), AllLeftOver(w, c));
    } else {
      assert AllOwed(w, c, false) == ExactCommitments(w, c);
    }
  }
}
