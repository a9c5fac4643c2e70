/**
 Posting a list of credits: the reversal of a completion, and the reclaimed share a dispatch gives back. */
module StockCredits {
  import opened Wrappers
  import opened Numbers
  import opened InventoryLedger
  import opened BatchCompletion

  datatype Credit = Credit(key: Key, quantity: real)

  datatype CreditRun = Credited(stock: Stock) | CreditRefused(reason: PostResult)

  /** The posting loop of a reversal (which skips a credit already posted) or of a reclaim (which fails on one). */
  function PostCredits(st: Stock, credits: seq<Credit>, skipPosted: bool): CreditRun {
    if credits == [] then Credited(st)
    else
      match PostCredits(st, credits[..|credits| - 1], skipPosted)
      case CreditRefused(r) => CreditRefused(r)
      case Credited(st1) =>
        var c := credits[|credits| - 1];
        var (st2, r) := Post(st1, c.key, c.quantity, 0.0);
        if r.Posted? || (r.AlreadyPosted? && skipPosted) then Credited(st2) else CreditRefused(r)
  }

  predicate IsCompletionOf(row: Row, t: nat) {
    row.key.source == FromTicket && row.key.sourceId == t && row.key.movement == BatchCompletion
  }

  /** findMany over the ledger: a ticket's own completion rows. */
  function CompletionRows(rows: seq<Row>, t: nat): seq<Row> {
    if rows == [] then []
    else CompletionRows(rows[..|rows| - 1], t) + (if IsCompletionOf(rows[|rows| - 1], t) then [rows[|rows| - 1]] else [])
  }

  function ReversalCredit(row: Row): Credit {
    Credit(row.key.(movement := CompletionReversal), -row.quantity)
  }

  function ReversalCredits(originals: seq<Row>): seq<Credit> {
    seq(|originals|, i requires 0 <= i < |originals| => ReversalCredit(originals[i]))
  }

  /** A ticket's components as the reclaim sees them: material and its specific gravity, where it has one. */
  type Components = map<MaterialId, Option<real>>

  ghost predicate Physical(comps: Components) {
    forall m :: m in comps && comps[m].Some? ==> comps[m].value > 0.0
  }

  /** Kilograms per unit of the store: litres go by specific gravity, tons by a thousand. */
  function KgPerUnit(litres: bool, specificGravity: Option<real>): real {
    if !litres then 1000.0 else if specificGravity.Some? then specificGravity.value else 1.0
  }

  function ReclaimCreditOf(row: Row, trip: nat, fraction: real): Credit {
    Credit(Key(FromTrip, trip, ReclaimCredit, row.key.materialId, row.key.storageId), Abs(row.quantity) * fraction)
  }

  predicate GetsCredit(row: Row, comps: Components, fraction: real) {
    row.key.materialId in comps && Abs(row.quantity) * fraction > 0.0
  }

  /** The credits of a reclaim: one per completion row whose component is still on the ticket and gets a positive share. */
  function ReclaimCredits(originals: seq<Row>, comps: Components, trip: nat, fraction: real): seq<Credit> {
    if originals == [] then []
    else
      var row := originals[|originals| - 1];
      var before := ReclaimCredits(originals[..|originals| - 1], comps, trip, fraction);
      if GetsCredit(row, comps, fraction) then before + [ReclaimCreditOf(row, trip, fraction)] else before
  }

  /** By way of kilograms, a share of a quantity is still that share. */
  lemma ShareThroughKg(quantity: real, factor: real, fraction: real)
    requires factor > 0.0
    ensures Abs(quantity) * factor * fraction / factor == Abs(quantity) * fraction
    ensures Abs(quantity) * factor * fraction <= 0.0 <==> Abs(quantity) * fraction <= 0.0
  {
    var share := Abs(quantity) * fraction;
    assert Abs(quantity) * factor * fraction == share * factor;
    if share > 0.0 { assert share * factor > 0.0; }
  }

  method ReversePostings(ledger: Ledger, t: nat) returns (refusal: Option<PostResult>)
    modifies ledger
    ensures match PostCredits(old(ledger.State()), ReversalCredits(CompletionRows(old(ledger.rows), t)), true)
            case CreditRefused(r) => refusal == Some(r) && ledger.State() == old(ledger.State())
            case Credited(st) => refusal == None && ledger.State() == st
  {
    var originals := CompletionRows(ledger.rows, t);
    refusal := PostEach(ledger, ReversalCredits(originals), true);
  }

  method PostEach(ledger: Ledger, credits: seq<Credit>, skipPosted: bool) returns (refusal: Option<PostResult>)
    modifies ledger
    ensures match PostCredits(old(ledger.State()), credits, skipPosted)
            case CreditRefused(r) => refusal == Some(r) && ledger.State() == old(ledger.State())
            case Credited(st) => refusal == None && ledger.State() == st
  {
    hide Post;
    var stores0, rows0 := ledger.stores, ledger.rows;
    ghost var unrecorded0, st0 := ledger.unrecorded, ledger.State();
    refusal := None;
    for i := 0 to |credits|
      invariant refusal == None ==> PostCredits(st0, credits[..i], skipPosted) == Credited(ledger.State())
      invariant refusal.Some? ==> PostCredits(st0, credits[..i], skipPosted) == CreditRefused(refusal.value)
    {
      assert credits[..i + 1][..i] == credits[..i];
      if refusal == None {
        var r := ledger.PostMovement(credits[i].key, credits[i].quantity, 0.0);
        if !(r.Posted? || (r.AlreadyPosted? && skipPosted)) { refusal := Some(r); }
      }
    }
    assert credits[..|credits|] == credits;
    if refusal.Some? {
      ledger.stores, ledger.rows, ledger.unrecorded := stores0, rows0, unrecorded0;
    }
  }

  lemma ReclaimNext(originals: seq<Row>, i: nat, comps: Components, trip: nat, fraction: real)
    requires i < |originals|
    ensures ReclaimCredits(originals[..i + 1], comps, trip, fraction)
            == var before := ReclaimCredits(originals[..i], comps, trip, fraction);
               if GetsCredit(originals[i], comps, fraction) then before + [ReclaimCreditOf(originals[i], trip, fraction)] else before
  {
    assert originals[..i + 1][..i] == originals[..i];
  }

  /** `tanks` are the chemical tanks, the stores counted in litres. */
  method ApplyReclaimCredit(ledger: Ledger, t: nat, trip: nat, comps: Components, tanks: set<StorageId>, reclaimedFraction: real)
    returns (refusal: Option<PostResult>)
    requires Physical(comps)
    modifies ledger
    ensures match PostCredits(old(ledger.State()), ReclaimCredits(CompletionRows(old(ledger.rows), t), comps, trip, reclaimedFraction), false)
            case CreditRefused(r) => refusal == Some(r) && ledger.State() == old(ledger.State())
            case Credited(st) => refusal == None && ledger.State() == st
  {
    hide PostCredits, Post, CompletionRows;
    var originals := CompletionRows(ledger.rows, t);
    var credits: seq<Credit> := [];
    for i := 0 to |originals|
      invariant credits == ReclaimCredits(originals[..i], comps, trip, reclaimedFraction)
      invariant unchanged(ledger)
    {
      var m := originals[i];
      ReclaimNext(originals, i, comps, trip, reclaimedFraction);
      if m.key.materialId in comps {
        var factor := KgPerUnit(m.key.storageId in tanks, comps[m.key.materialId]);
        ShareThroughKg(m.quantity, factor, reclaimedFraction);
        var creditMassKg := Abs(m.quantity) * factor * reclaimedFraction;
        if creditMassKg > 0.0 {
          var key := Key(FromTrip, trip, ReclaimCredit, m.key.materialId, m.key.storageId);
          assert Credit(key, creditMassKg / factor) == ReclaimCreditOf(m, trip, reclaimedFraction);
          credits := credits + [Credit(key, creditMassKg / factor)];
        }
      }
    }
    assert originals[..|originals|] == originals;
    refusal := PostEach(ledger, credits, false);
  }

  /** Posted once is posted: a reversal gone through before passes again and moves nothing, a reclaim is refused. */
  lemma {:induction false} RepostingMovesNothing(st: Stock, credits: seq<Credit>, skipPosted: bool)
    requires forall i :: 0 <= i < |credits| ==> HasRow(st.rows, credits[i].key)
    ensures PostCredits(st, credits, skipPosted) == if skipPosted || credits == [] then Credited(st) else CreditRefused(AlreadyPosted)
  {
    if credits != [] {
      var before := credits[..|credits| - 1];
      assert forall i :: 0 <= i < |before| ==> before[i] == credits[i];
      assert HasRow(st.rows, credits[|credits| - 1].key);
      RepostingMovesNothing(st, before, skipPosted);
    }
  }

  // ---- What posting a list of credits leaves in the ledger ------------------------

  /** The ledger only gains rows, under keys from `keys`, and each stays unique. */
  ghost predicate Grows(st: Stock, st': Stock, keys: set<Key>) {
    && st.rows <= st'.rows
    && UniqueKeys(st'.rows)
    && (forall i :: |st.rows| <= i < |st'.rows| ==> st'.rows[i].key in keys)
    && Conserves(st, st')
    && AllInBounds(st')
  }

  ghost predicate NewCredits(rows: seq<Row>, credits: seq<Credit>) {
    && (forall i :: 0 <= i < |credits| ==> 0.0 < credits[i].quantity && !HasRow(rows, credits[i].key))
    && (forall i, j :: 0 <= i < j < |credits| ==> credits[i].key != credits[j].key)
  }

  ghost function KeysOf(credits: seq<Credit>): set<Key> {
    set i | 0 <= i < |credits| :: credits[i].key
  }

  lemma RecordedStays(rows: seq<Row>, rows': seq<Row>, key: Key, quantity: real)
    requires rows <= rows' && Recorded(rows, key, quantity)
    requires forall i :: |rows| <= i < |rows'| ==> rows'[i].key != key
    ensures Recorded(rows', key, quantity)
  {
    assert rows' == rows + rows'[|rows|..];
    QuantityOfExtended(rows, rows'[|rows|..], key);
    var more := rows'[|rows|..];
    NoSuchRow(more, key);
  }

  lemma {:induction false} NoSuchRow(rows: seq<Row>, key: Key)
    requires forall i :: 0 <= i < |rows| ==> rows[i].key != key
    ensures QuantityOf(rows, key) == 0.0 && !HasRow(rows, key)
  {
    if rows != [] { NoSuchRow(rows[1..], key); }
  }

  lemma OneCreditRecorded(st: Stock, c: Credit)
    requires AllInBounds(st) && UniqueKeys(st.rows) && 0.0 < c.quantity && !HasRow(st.rows, c.key)
    requires Post(st, c.key, c.quantity, 0.0).1.Posted?
    ensures var st' := Post(st, c.key, c.quantity, 0.0).0;
            Grows(st, st', {c.key}) && Recorded(st'.rows, c.key, c.quantity)
  {
    PostConserves(st, c.key, c.quantity, 0.0);
    CreditRecorded(st, c.key, c.quantity);
    var (st', r) := Post(st, c.key, c.quantity, 0.0);
    var more := st'.rows[|st.rows|..];
    assert st'.rows == st.rows + more;
    QuantityOfExtended(st.rows, more, c.key);
    assert QuantityOf(more, c.key) == r.applied;
  }

  lemma {:induction false} CreditsRecorded(st: Stock, credits: seq<Credit>, skipPosted: bool)
    requires AllInBounds(st) && UniqueKeys(st.rows) && NewCredits(st.rows, credits)
    requires PostCredits(st, credits, skipPosted).Credited?
    ensures var st' := PostCredits(st, credits, skipPosted).stock;
            Grows(st, st', KeysOf(credits))
            && forall i :: 0 <= i < |credits| ==> Recorded(st'.rows, credits[i].key, credits[i].quantity)
  {
    hide Post, Recorded, Conserves, UniqueKeys, AllInBounds, HasRow;
    if credits == [] {
      NothingGrown(st, KeysOf(credits));
    } else {
      var before, c := credits[..|credits| - 1], credits[|credits| - 1];
      assert forall i :: 0 <= i < |before| ==> before[i] == credits[i];
      CreditsRecorded(st, before, skipPosted);
      var st1 := PostCredits(st, before, skipPosted).stock;
      assert forall k :: k in KeysOf(before) ==> k != c.key;
      StillNew(st, st1, KeysOf(before), c.key);
      NotPostedTwice(st1, c);
      OneCreditRecorded(st1, c);
      var st' := Post(st1, c.key, c.quantity, 0.0).0;
      GrowsTransitive(st, st1, st', KeysOf(before), {c.key});
      assert KeysOf(before) + {c.key} <= KeysOf(credits);
      forall i | 0 <= i < |before| ensures Recorded(st'.rows, before[i].key, before[i].quantity) {
        RecordedStays(st1.rows, st'.rows, before[i].key, before[i].quantity);
      }
    }
  }

  lemma NotPostedTwice(st: Stock, c: Credit)
    requires !HasRow(st.rows, c.key)
    ensures !Post(st, c.key, c.quantity, 0.0).1.AlreadyPosted?
  {}

  lemma NothingGrown(st: Stock, keys: set<Key>)
    requires AllInBounds(st) && UniqueKeys(st.rows)
    ensures Grows(st, st, keys)
  {}

  lemma StillNew(st: Stock, st': Stock, keys: set<Key>, key: Key)
    requires Grows(st, st', keys) && key !in keys && !HasRow(st.rows, key)
    ensures !HasRow(st'.rows, key)
  {
    hide UniqueKeys, AllInBounds, Conserves;
    forall i | 0 <= i < |st'.rows| ensures st'.rows[i].key != key {
      if i < |st.rows| { assert st.rows[i] == st'.rows[i]; }
    }
  }

  lemma GrowsTransitive(a: Stock, b: Stock, c: Stock, keys: set<Key>, more: set<Key>)
    requires Grows(a, b, keys) && Grows(b, c, more)
    ensures Grows(a, c, keys + more)
  {
    hide UniqueKeys, AllInBounds, Conserves;
    ConservesTransitive(a, b, c);
    forall i | |a.rows| <= i < |c.rows| ensures c.rows[i].key in keys + more {
      if i < |b.rows| { assert c.rows[i] == b.rows[i]; }
    }
  }
}
