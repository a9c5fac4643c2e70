/** Completing a ticket against the ledger, and the dry run that prices its shortage beforehand. */
module BatchCompletion {
  import opened Wrappers
  import opened Numbers
  import opened InventoryLedger

  /** A tracked component with the store it draws from, in the order both runs use. */
  datatype Resolved = Resolved(materialId: MaterialId, storageId: StorageId, required: real)

  datatype Shortage = Shortage(materialId: MaterialId, amount: real)

  datatype Run = Completed(stock: Stock, shortages: seq<Shortage>) | Refused(reason: PostResult)

  function CompletionKey(t: nat, c: Resolved): Key {
    Key(FromTicket, t, BatchCompletion, c.materialId, c.storageId)
  }

  function Ceiling(allowed: map<MaterialId, real>, m: MaterialId): real {
    if m in allowed then allowed[m] else 0.0
  }

  /** The posting loop of a completion, over the components so far. */
  function PostAll(st: Stock, t: nat, comps: seq<Resolved>, allowed: map<MaterialId, real>): Run {
    if comps == [] then Completed(st, [])
    else
      match PostAll(st, t, comps[..|comps| - 1], allowed)
      case Refused(r) => Refused(r)
      case Completed(st1, shortages) =>
        var c := comps[|comps| - 1];
        var (st2, r) := Post(st1, CompletionKey(t, c), -c.required, Ceiling(allowed, c.materialId));
        match r
        case AlreadyPosted => Completed(st1, shortages)
        case Posted(_, _, letThrough) =>
          Completed(st2, if letThrough > EPSILON then shortages + [Shortage(c.materialId, letThrough)] else shortages)
        case _ => Refused(r)
  }

  datatype Snapshot = Snapshot(remaining: map<StorageId, real>, entries: seq<Shortage>)

  /** One step of the dry run: draw a component from the running balance of its store. */
  function DryStep(stores: map<StorageId, Storage>, sn: Snapshot, c: Resolved): Snapshot
    requires c.storageId in stores
  {
    var held := if c.storageId in sn.remaining then sn.remaining[c.storageId] else stores[c.storageId].level;
    var available := Max(0.0, held);
    var short := Max(0.0, c.required - available);
    Snapshot(sn.remaining[c.storageId := available - Min(c.required, available)],
             if short > EPSILON then sn.entries + [Shortage(c.materialId, short)] else sn.entries)
  }

  predicate AllStored(stores: map<StorageId, Storage>, comps: seq<Resolved>) {
    forall i :: 0 <= i < |comps| ==> comps[i].storageId in stores
  }

  function DryRun(stores: map<StorageId, Storage>, comps: seq<Resolved>): Snapshot
    requires AllStored(stores, comps)
  {
    if comps == [] then Snapshot(map[], [])
    else DryStep(stores, DryRun(stores, comps[..|comps| - 1]), comps[|comps| - 1])
  }

  /** The snapshot an approval carries, as the ceiling each material was approved for. */
  function ApprovedCeilings(entries: seq<Shortage>): map<MaterialId, real> {
    if entries == [] then map[]
    else ApprovedCeilings(entries[..|entries| - 1])[entries[|entries| - 1].materialId := entries[|entries| - 1].amount]
  }

  method ComputeShortageSnapshot(stores: map<StorageId, Storage>, comps: seq<Resolved>) returns (entries: seq<Shortage>)
    requires AllStored(stores, comps)
    ensures entries == DryRun(stores, comps).entries
  {
    var remainingByStorage: map<StorageId, real> := map[];
    entries := [];
    for i := 0 to |comps|
      invariant Snapshot(remainingByStorage, entries) == DryRun(stores, comps[..i])
    {
      var c := comps[i];
      assert comps[..i + 1][..i] == comps[..i];
      if c.storageId !in remainingByStorage {
        remainingByStorage := remainingByStorage[c.storageId := stores[c.storageId].level];
      }
      var availableQty := Max(0.0, remainingByStorage[c.storageId]);
      var shortageQty := Max(0.0, c.required - availableQty);
      remainingByStorage := remainingByStorage[c.storageId := availableQty - Min(c.required, availableQty)];
      if shortageQty > EPSILON { entries := entries + [Shortage(c.materialId, shortageQty)]; }
    }
    assert comps[..|comps|] == comps;
  }

  /** The completion transaction on the ledger: post everything, or nothing at all. */
  method PostCompletion(ledger: Ledger, t: nat, comps: seq<Resolved>, allowed: map<MaterialId, real>)
    returns (refusal: Option<PostResult>, shortages: seq<Shortage>)
    modifies ledger
    ensures match PostAll(old(ledger.State()), t, comps, allowed)
            case Refused(r) => refusal == Some(r) && ledger.State() == old(ledger.State())
            case Completed(st, sh) => refusal == None && shortages == sh && ledger.State() == st
  {
    hide Post;
    var stores0, rows0 := ledger.stores, ledger.rows;
    ghost var unrecorded0 := ledger.unrecorded;
    ghost var st0 := ledger.State();
    refusal, shortages := None, [];
    for i := 0 to |comps|
      invariant refusal == None ==> PostAll(st0, t, comps[..i], allowed) == Completed(ledger.State(), shortages)
      invariant refusal.Some? ==> PostAll(st0, t, comps[..i], allowed) == Refused(refusal.value)
    {
      assert comps[..i + 1][..i] == comps[..i];
      if refusal == None {
        var c := comps[i];
        var r := ledger.PostMovement(CompletionKey(t, c), -c.required, Ceiling(allowed, c.materialId));
        match r {
          case AlreadyPosted =>
          case Posted(_, _, letThrough) =>
            if letThrough > EPSILON { shortages := shortages + [Shortage(c.materialId, letThrough)]; }
          case _ => refusal := Some(r);
        }
      }
    }
    assert comps[..|comps|] == comps;
    if refusal.Some? {
      ledger.stores, ledger.rows, ledger.unrecorded := stores0, rows0, unrecorded0;
    }
  }

  // ---- Both runs in closed form ---------------------------------------------------

  /** Everything the components so far ask of one store. */
  function Drawn(comps: seq<Resolved>, s: StorageId): real {
    if comps == [] then 0.0
    else Drawn(comps[..|comps| - 1], s) + (if comps[|comps| - 1].storageId == s then comps[|comps| - 1].required else 0.0)
  }

  /** What is left in the store of component i when its turn comes. */
  function LeftBefore(stores: map<StorageId, Storage>, comps: seq<Resolved>, i: nat): real
    requires i < |comps| && comps[i].storageId in stores
  {
    Max(0.0, stores[comps[i].storageId].level - Drawn(comps[..i], comps[i].storageId))
  }

  function ShortAt(stores: map<StorageId, Storage>, comps: seq<Resolved>, i: nat): real
    requires i < |comps| && comps[i].storageId in stores
  {
    Max(0.0, comps[i].required - LeftBefore(stores, comps, i))
  }

  /** The shortages worth naming, in order. */
  function Shorts(stores: map<StorageId, Storage>, comps: seq<Resolved>, n: nat): seq<Shortage>
    requires n <= |comps| && AllStored(stores, comps)
  {
    if n == 0 then []
    else Shorts(stores, comps, n - 1)
         + (if ShortAt(stores, comps, n - 1) > EPSILON then [Shortage(comps[n - 1].materialId, ShortAt(stores, comps, n - 1))] else [])
  }

  /** What the database guarantees of a ticket about to complete: one row per material, masses not negative. */
  ghost predicate Completable(st: Stock, t: nat, comps: seq<Resolved>) {
    && AllStored(st.stores, comps)
    && (forall i :: 0 <= i < |comps| ==> 0.0 <= comps[i].required && !HasRow(st.rows, CompletionKey(t, comps[i])))
    && (forall i, j :: 0 <= i < j < |comps| ==> comps[i].materialId != comps[j].materialId)
  }

  lemma {:induction false} DrawnIsMonotone(comps: seq<Resolved>, s: StorageId, i: nat)
    requires i <= |comps| && forall k :: 0 <= k < |comps| ==> 0.0 <= comps[k].required
    ensures 0.0 <= Drawn(comps[..i], s) <= Drawn(comps, s)
    decreases |comps|
  {
    if i < |comps| {
      var rest := comps[..|comps| - 1];
      assert comps[..i] == rest[..i];
      assert forall k :: 0 <= k < |rest| ==> rest[k] == comps[k];
      DrawnIsMonotone(rest, s, i);
    } else {
      assert comps[..i] == comps;
      if comps != [] {
        var rest := comps[..|comps| - 1];
        assert forall k :: 0 <= k < |rest| ==> rest[k] == comps[k];
        DrawnIsMonotone(rest, s, |rest|);
        assert rest[..|rest|] == rest;
      }
    }
  }

  /** The dry run's balance of each store. */
  ghost predicate Balanced(stores: map<StorageId, Storage>, comps: seq<Resolved>, remaining: map<StorageId, real>) {
    forall s :: s in stores ==>
      (if s in remaining then remaining[s] else stores[s].level) == Max(0.0, stores[s].level - Drawn(comps, s))
  }

  lemma DryStepClosed(stores: map<StorageId, Storage>, comps: seq<Resolved>, n: nat, sn: Snapshot)
    requires n < |comps| && AllStored(stores, comps) && 0.0 <= comps[n].required && 0.0 <= Drawn(comps[..n], comps[n].storageId)
    requires forall s :: s in stores ==> 0.0 <= stores[s].level
    requires Balanced(stores, comps[..n], sn.remaining) && sn.entries == Shorts(stores, comps, n)
    ensures Balanced(stores, comps[..n + 1], DryStep(stores, sn, comps[n]).remaining)
    ensures DryStep(stores, sn, comps[n]).entries == Shorts(stores, comps, n + 1)
  {
    assert comps[..n + 1][..n] == comps[..n];
    var c := comps[n];
    forall s | s in stores
      ensures Drawn(comps[..n + 1], s) == Drawn(comps[..n], s) + (if c.storageId == s then c.required else 0.0)
    {}
    var held := if c.storageId in sn.remaining then sn.remaining[c.storageId] else stores[c.storageId].level;
    assert held == LeftBefore(stores, comps, n) >= 0.0;
    hide Drawn;
  }

  /** The dry run's balances and entries, in closed form. */
  lemma {:induction false} DryRunClosed(stores: map<StorageId, Storage>, comps: seq<Resolved>, n: nat)
    requires n <= |comps| && AllStored(stores, comps)
    requires forall i :: 0 <= i < |comps| ==> 0.0 <= comps[i].required
    requires forall s :: s in stores ==> 0.0 <= stores[s].level
    ensures DryRun(stores, comps[..n]).entries == Shorts(stores, comps, n)
    ensures Balanced(stores, comps[..n], DryRun(stores, comps[..n]).remaining)
  {
    if n > 0 {
      DryRunClosed(stores, comps, n - 1);
      assert comps[..n][..n - 1] == comps[..n - 1];
      DrawnIsMonotone(comps, comps[n - 1].storageId, n - 1);
      DryStepClosed(stores, comps, n - 1, DryRun(stores, comps[..n - 1]));
    }
  }

  /** In bounds, one posted component: what it leaves, and when it is refused. */
  lemma PostOne(st: Stock, key: Key, required: real, maxAllowed: real)
    requires AllInBounds(st) && 0.0 <= required && key.storageId in st.stores && !HasRow(st.rows, key)
    ensures var (st', r) := Post(st, key, -required, maxAllowed);
            var short := Max(0.0, required - st.stores[key.storageId].level);
            && (r.Posted? <==> short <= Max(0.0, maxAllowed) + EPSILON)
            && (!r.Posted? ==> r == InsufficientStock)
            && (r.Posted? ==>
                 && r.shortfallAllowed == short
                 && AllInBounds(st')
                 && st'.stores.Keys == st.stores.Keys
                 && (forall s :: s in st.stores ==>
                       st'.stores[s].level == (if s == key.storageId then Max(0.0, st.stores[s].level - required) else st.stores[s].level))
                 && (forall k :: HasRow(st'.rows, k) ==> HasRow(st.rows, k) || k == key))
  {
  }

  /** What the posting loop has come to after n components, in closed form. */
  ghost predicate IsClosedForm(st: Stock, t: nat, comps: seq<Resolved>, n: nat, run: Run)
    requires AllStored(st.stores, comps) && n <= |comps|
  {
    run.Completed? ==>
      && run.shortages == Shorts(st.stores, comps, n)
      && AllInBounds(run.stock) && run.stock.stores.Keys == st.stores.Keys
      && (forall s :: s in st.stores ==> run.stock.stores[s].level == Max(0.0, st.stores[s].level - Drawn(comps[..n], s)))
      && (forall i :: n <= i < |comps| ==> !HasRow(run.stock.rows, CompletionKey(t, comps[i])))
  }

  predicate Covered(stores: map<StorageId, Storage>, comps: seq<Resolved>, allowed: map<MaterialId, real>, i: nat)
    requires i < |comps| && comps[i].storageId in stores
  {
    ShortAt(stores, comps, i) <= Max(0.0, Ceiling(allowed, comps[i].materialId)) + EPSILON
  }

  lemma PostNext(st: Stock, t: nat, comps: seq<Resolved>, allowed: map<MaterialId, real>, n: nat, before: Run)
    requires Completable(st, t, comps) && AllInBounds(st) && n < |comps|
    requires before.Completed? && IsClosedForm(st, t, comps, n, before)
    ensures var c := comps[n];
            var (st2, r) := Post(before.stock, CompletionKey(t, c), -c.required, Ceiling(allowed, c.materialId));
            && (r.Posted? <==> Covered(st.stores, comps, allowed, n))
            && (!r.Posted? ==> r == InsufficientStock)
            && (r.Posted? ==> r.shortfallAllowed == ShortAt(st.stores, comps, n))
            && (r.Posted? ==> IsClosedForm(st, t, comps, n + 1, Completed(st2, Shorts(st.stores, comps, n + 1))))
  {
    hide Post, HasRow;
    var c := comps[n];
    assert comps[..n + 1][..n] == comps[..n];
    DrawnIsMonotone(comps, c.storageId, n);
    PostOne(before.stock, CompletionKey(t, c), c.required, Ceiling(allowed, c.materialId));
    assert LeftBefore(st.stores, comps, n) == before.stock.stores[c.storageId].level;
  }

  /** The real run follows the closed form, and goes through exactly while every shortage is covered. */
  lemma {:induction false} PostAllClosed(st: Stock, t: nat, comps: seq<Resolved>, allowed: map<MaterialId, real>, n: nat)
    requires AllInBounds(st) && Completable(st, t, comps) && n <= |comps|
    ensures var run := PostAll(st, t, comps[..n], allowed);
            && (run.Completed? <==> forall i :: 0 <= i < n ==> Covered(st.stores, comps, allowed, i))
            && (run.Refused? ==> run.reason == InsufficientStock)
            && IsClosedForm(st, t, comps, n, run)
  {
    hide Post, HasRow, IsClosedForm, Covered;
    if n > 0 {
      PostAllClosed(st, t, comps, allowed, n - 1);
      assert comps[..n][..n - 1] == comps[..n - 1];
      var before := PostAll(st, t, comps[..n - 1], allowed);
      if before.Completed? {
        ShortagesSoFar(st, t, comps, n - 1, before);
        PostNext(st, t, comps, allowed, n - 1, before);
        assert before.shortages + [] == before.shortages;
      } else {
        RefusedIsClosed(st, t, comps, n, PostAll(st, t, comps[..n], allowed));
      }
      if !Covered(st.stores, comps, allowed, n - 1) { RefusedIsClosed(st, t, comps, n, PostAll(st, t, comps[..n], allowed)); }
    } else {
      assert comps[..0] == [];
      NothingPosted(st, t, comps);
    }
  }

  lemma ShortagesSoFar(st: Stock, t: nat, comps: seq<Resolved>, n: nat, run: Run)
    requires AllStored(st.stores, comps) && n <= |comps| && run.Completed? && IsClosedForm(st, t, comps, n, run)
    ensures run.shortages == Shorts(st.stores, comps, n)
  {
  }

  lemma RefusedIsClosed(st: Stock, t: nat, comps: seq<Resolved>, n: nat, run: Run)
    requires AllStored(st.stores, comps) && n <= |comps| && run.Refused?
    ensures IsClosedForm(st, t, comps, n, run)
  {
  }

  lemma NothingPosted(st: Stock, t: nat, comps: seq<Resolved>)
    requires AllInBounds(st) && Completable(st, t, comps)
    ensures IsClosedForm(st, t, comps, 0, Completed(st, []))
  {
    assert comps[..0] == [];
  }

  /** Each of the first n materials is allowed its shortage, if it is worth naming, and the others nothing. */
  ghost predicate Allows(stores: map<StorageId, Storage>, comps: seq<Resolved>, n: nat, allowed: map<MaterialId, real>)
    requires n <= |comps| && AllStored(stores, comps)
  {
    && (forall i :: 0 <= i < n ==>
          Ceiling(allowed, comps[i].materialId) == if ShortAt(stores, comps, i) > EPSILON then ShortAt(stores, comps, i) else 0.0)
    && (forall i :: n <= i < |comps| ==> comps[i].materialId !in allowed)
  }

  lemma AllowsNext(stores: map<StorageId, Storage>, comps: seq<Resolved>, n: nat, allowed: map<MaterialId, real>)
    requires n < |comps| && AllStored(stores, comps) && Allows(stores, comps, n, allowed)
    requires forall i, j :: 0 <= i < j < |comps| ==> comps[i].materialId != comps[j].materialId
    ensures Allows(stores, comps, n + 1,
                   if ShortAt(stores, comps, n) > EPSILON then allowed[comps[n].materialId := ShortAt(stores, comps, n)] else allowed)
  {
    hide ShortAt;
    assert forall i :: 0 <= i < |comps| && i != n ==> comps[i].materialId != comps[n].materialId;
  }

  lemma {:induction false} ShortsAreApproved(stores: map<StorageId, Storage>, comps: seq<Resolved>, n: nat)
    requires n <= |comps| && AllStored(stores, comps)
    requires forall i, j :: 0 <= i < j < |comps| ==> comps[i].materialId != comps[j].materialId
    ensures Allows(stores, comps, n, ApprovedCeilings(Shorts(stores, comps, n)))
  {
    if n == 0 {
      assert Shorts(stores, comps, 0) == [] && ApprovedCeilings([]) == map[];
    } else {
      hide Allows, ShortAt, ApprovedCeilings;
      ShortsAreApproved(stores, comps, n - 1);
      var before, e := Shorts(stores, comps, n - 1), Shortage(comps[n - 1].materialId, ShortAt(stores, comps, n - 1));
      AllowsNext(stores, comps, n - 1, ApprovedCeilings(before));
      OneMoreCeiling(before, e);
      assert Shorts(stores, comps, n) == if e.amount > EPSILON then before + [e] else before + [];
      assert before + [] == before;
    }
  }

  lemma OneMoreCeiling(before: seq<Shortage>, e: Shortage)
    ensures ApprovedCeilings(before + [e]) == ApprovedCeilings(before)[e.materialId := e.amount]
  {
    assert (before + [e])[..|before|] == before;
  }

  // ---- Main results ------------------------------------------------------------

  /**
   The dry run predicts the real run. For any components sharing any stores: the
   snapshot is empty exactly when completion needs no approval, and with the
   snapshot approved and nothing changed, completion goes through and names
   exactly the snapshot's shortages, in order and in amount.
   */
  lemma DryRunPredictsCompletion(st: Stock, t: nat, comps: seq<Resolved>)
    requires AllInBounds(st) && Completable(st, t, comps)
    ensures var entries := DryRun(st.stores, comps).entries;
            && (entries == [] <==> PostAll(st, t, comps, map[]).Completed?)
            && PostAll(st, t, comps, ApprovedCeilings(entries)).Completed?
            && PostAll(st, t, comps, ApprovedCeilings(entries)).shortages == entries
  {
    hide Post, HasRow, PostAll, DryRun, ShortAt, Shorts, ApprovedCeilings;
    var n := |comps|;
    assert comps[..n] == comps;
    DryRunClosed(st.stores, comps, n);
    var entries := Shorts(st.stores, comps, n);
    PostAllClosed(st, t, comps, map[], n);
    PostAllClosed(st, t, comps, ApprovedCeilings(entries), n);
    ShortsAreApproved(st.stores, comps, n);
    ShortsEmpty(st.stores, comps, n);
    forall i | 0 <= i < n
      ensures Covered(st.stores, comps, ApprovedCeilings(entries), i)
      ensures Covered(st.stores, comps, map[], i) <==> ShortAt(st.stores, comps, i) <= EPSILON
    {}
  }

  lemma {:induction false} ShortsEmpty(stores: map<StorageId, Storage>, comps: seq<Resolved>, n: nat)
    requires n <= |comps| && AllStored(stores, comps)
    ensures Shorts(stores, comps, n) == [] <==> forall i :: 0 <= i < n ==> ShortAt(stores, comps, i) <= EPSILON
  {
    if n > 0 { ShortsEmpty(stores, comps, n - 1); }
  }

  /** The same stores, none holding less than when the snapshot was taken. */
  ghost predicate NoLess(was: map<StorageId, Storage>, now: map<StorageId, Storage>) {
    was.Keys == now.Keys && forall s :: s in was ==> was[s].level <= now[s].level
  }

  /**
   An approval still covers the ticket when stock has only come in: completion
   then never ends in a shortage refusal, and lets no material through beyond
   its approved amount plus EPSILON.
   */
  lemma ApprovalCoversEqualOrMoreStock(was: Stock, now: Stock, t: nat, comps: seq<Resolved>)
    requires AllInBounds(was) && AllInBounds(now) && NoLess(was.stores, now.stores)
    requires Completable(now, t, comps)
    ensures var allowed := ApprovedCeilings(DryRun(was.stores, comps).entries);
            var run := PostAll(now, t, comps, allowed);
            && run.Completed?
            && forall k :: 0 <= k < |run.shortages| ==>
                 run.shortages[k].amount <= Ceiling(allowed, run.shortages[k].materialId) + EPSILON
  {
    var n := |comps|;
    assert comps[..n] == comps;
    DryRunClosed(was.stores, comps, n);
    ShortsAreApproved(was.stores, comps, n);
    var allowed := ApprovedCeilings(Shorts(was.stores, comps, n));
    PostAllClosed(now, t, comps, allowed, n);
    forall i | 0 <= i < n ensures ShortAt(now.stores, comps, i) <= ShortAt(was.stores, comps, i) {}
    ShortsAreShort(now.stores, comps, n);
  }

  lemma {:induction false} ShortsAreShort(stores: map<StorageId, Storage>, comps: seq<Resolved>, n: nat)
    requires n <= |comps| && AllStored(stores, comps)
    ensures forall k :: 0 <= k < |Shorts(stores, comps, n)| ==> exists i ::
              0 <= i < n && Shorts(stores, comps, n)[k] == Shortage(comps[i].materialId, ShortAt(stores, comps, i))
  {
    if n > 0 {
      ShortsAreShort(stores, comps, n - 1);
      var before, all := Shorts(stores, comps, n - 1), Shorts(stores, comps, n);
      forall k | 0 <= k < |all|
        ensures exists i :: 0 <= i < n && all[k] == Shortage(comps[i].materialId, ShortAt(stores, comps, i))
      {
        if k < |before| {
          assert all[k] == before[k];
        } else {
          assert all[k] == Shortage(comps[n - 1].materialId, ShortAt(stores, comps, n - 1));
        }
      }
    } else {
      assert Shorts(stores, comps, 0) == [];
    }
  }

  /** Every shortage at one store, small ones included. */
  function TotalShort(stores: map<StorageId, Storage>, comps: seq<Resolved>, s: StorageId, n: nat): real
    requires n <= |comps| && AllStored(stores, comps)
  {
    if n == 0 then 0.0
    else TotalShort(stores, comps, s, n - 1) + (if comps[n - 1].storageId == s then ShortAt(stores, comps, n - 1) else 0.0)
  }

  /** However the components share a store, its shortages add up to what is asked beyond its level. */
  lemma {:induction false} TotalShortage(stores: map<StorageId, Storage>, comps: seq<Resolved>, s: StorageId, n: nat)
    requires n <= |comps| && AllStored(stores, comps) && s in stores && 0.0 <= stores[s].level
    requires forall i :: 0 <= i < |comps| ==> 0.0 <= comps[i].required
    ensures TotalShort(stores, comps, s, n) == Max(0.0, Drawn(comps[..n], s) - stores[s].level)
  {
    if n > 0 {
      TotalShortage(stores, comps, s, n - 1);
      assert comps[..n][..n - 1] == comps[..n - 1];
      DrawnIsMonotone(comps, s, n - 1);
    }
  }
}
