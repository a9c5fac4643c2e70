/**
 When a replay can be refused as stale although nobody else wrote the field. A
 quiet run is one in which nobody else's write lands on a field this partition
 has queued, no accepted answer is lost, no lease is taken over, no two passes of
 the flush loop hold one item, no tab forgets a version only it knows, and
 a fresh item starts at the server's version.
 */
module NoFalseConflict {
  import opened Wrappers
  import opened ComponentEdits
  import opened OfflineQueue
  import opened ReplayProtocol

  /**
   The server's version of a field: how many writes it has taken. Deleting the
   component ends them, and its id never returns; another ticket's component is
   never this field.
   */
  function VersionAt(db: Records, t: Target): nat {
    if t.componentId in db.components && db.components[t.componentId].ticketId != t.ticketId then 0
    else |FieldHistory(db.log, t.componentId, t.which)|
  }

  lemma VersionIsTheRows(db: Records, t: Target)
    requires Versioned(db) && t.componentId in db.components && db.components[t.componentId].ticketId == t.ticketId
    ensures VersionAt(db, t) == VersionOf(db.components[t.componentId], t.which)
  {
    assert OneWritePerVersion(db, t.componentId, t.which);
  }

  /** The pass adopts a remembered version older than the one its item carries. */
  predicate Lowers(w: World, f: FlightId) {
    f in w.flights && w.flights[f].phase.Claimed? &&
    var it := w.flights[f].phase.item;
    var m := RememberedBy(w, w.flights[f].owner);
    it.id in m && m[it.id].generation != it.generation && m[it.id].version.Some? && m[it.id].version.value < it.expectedVersion
  }

  /** No field that is queued has taken a write. */
  ghost predicate QueuedUnwritten(w: World, db: Records) {
    forall id :: Lookup(w.store.pending, id).Some? ==>
      VersionAt(db, Lookup(w.store.pending, id).value.target) == VersionAt(w.server, Lookup(w.store.pending, id).value.target)
  }

  ghost predicate Calm(w: World, e: Event) {
    match e
    case Enqueue(target, _, expected, _) =>
      IndexOfTarget(w.store.pending, target) == |w.store.pending| ==> expected == VersionAt(w.server, target)
    case Claim(f, o, id, now, disk) =>
      f !in w.flights && ClaimStep(w.store, o, id, now, disk).1.ClaimOk? ==>
        && (forall g :: g in w.flights ==> w.flights[g].phase.item.id != id)
        && (Lookup(w.store.pending, id).Some? ==>
              Lookup(w.store.pending, id).value.leaseOwner == None || Lookup(w.store.pending, id).value.leaseOwner == Some(o))
    case Fail(_, _) => QueuedUnwritten(w, Step(w, e).server)
    case Abandon(f) => f in w.flights ==> !(w.flights[f].phase.Answered? && w.flights[f].phase.outcome.Applied?)
    case Forget(o) =>
      forall id :: Lookup(w.store.pending, id).Some? && id in RememberedBy(w, o) ==>
        Lookup(w.store.pending, id).value.expectedVersion == VersionAt(w.server, Lookup(w.store.pending, id).value.target)
    case Server(op) => QueuedUnwritten(w, Apply(w.server, op))
    case _ => true
  }

  /** Whatever another writer does to other fields, and whatever becomes of tickets and components, is calm. */
  lemma OnlyWritesToQueuedFieldsDisturb(w: World, op: Op)
    requires match op {
      case SaveField(_, id, which, _, _) =>
        forall x :: Lookup(w.store.pending, x).Some? ==>
          Lookup(w.store.pending, x).value.target.componentId != id || Lookup(w.store.pending, x).value.target.which != which
      case SaveAll(_, writes) =>
        forall x, i :: Lookup(w.store.pending, x).Some? && 0 <= i < |writes| ==> Lookup(w.store.pending, x).value.target.componentId != writes[i].id
      case DeleteComponent(_, id) =>
        forall x :: Lookup(w.store.pending, x).Some? && Lookup(w.store.pending, x).value.target.componentId == id && id in w.server.components ==>
          w.server.components[id].ticketId == Lookup(w.store.pending, x).value.target.ticketId
      case _ => true
    }
    ensures Calm(w, Server(op))
  {
    forall x | Lookup(w.store.pending, x).Some?
      ensures VersionAt(Apply(w.server, op), Lookup(w.store.pending, x).value.target) == VersionAt(w.server, Lookup(w.store.pending, x).value.target)
    {
      var t := Lookup(w.store.pending, x).value.target;
      match op
      case SaveField(ticket, id, which, value, expected) =>
        var claimed := w.server.(tickets := w.server.tickets[ticket := Batching]);
        if id in claimed.components { WriteAddsOne(claimed, id, which, value, t); }
      case SaveAll(ticket, writes) => ApplyAllAdds(w.server.(tickets := w.server.tickets[ticket := Batching]), writes, t);
      case AddComponent(_, id) => if FreshComponent(w.server, id) { UntouchedFieldHasNoHistory(w.server.log, id, t.which); }
      case _ =>
    }
  }

  lemma WriteAddsOne(db: Records, id: nat, which: Which, value: real, t: Target)
    requires id in db.components
    ensures VersionAt(WriteField(db, id, which, value), t)
            == VersionAt(db, t) + (if t == Target(db.components[id].ticketId, id, which) then 1 else 0)
  {
    var log := WriteField(db, id, which, value).log;
    assert log[..|log| - 1] == db.log;
  }

  lemma {:induction false} ApplyAllAdds(db: Records, writes: seq<BulkWrite>, t: Target)
    requires forall i :: 0 <= i < |writes| ==> writes[i].id != t.componentId
    ensures VersionAt(ApplyAll(db, writes).0, t) == VersionAt(db, t)
  {
    if writes != [] {
      var rest, w := writes[..|writes| - 1], writes[|writes| - 1];
      ApplyAllAdds(db, rest, t);
      var d := ApplyAll(db, rest).0;
      if Matches(d, w) {
        WriteAddsOne(d, w.id, Actual, w.actualMassKg, t);
        if w.moisturePct.Some? { WriteAddsOne(WriteField(d, w.id, Actual, w.actualMassKg), w.id, Moisture, w.moisturePct.value, t); }
      }
    }
  }

  /** Calm, and no pass lowers an item's version. */
  ghost predicate Quiet(w: World, e: Event) {
    Calm(w, e) && (e.Decide? ==> !Lowers(w, e.flight))
  }

  ghost predicate QuietRun(w: World, es: seq<Event>)
    decreases |es|
  {
    es == [] || (QuietRun(w, es[..|es| - 1]) && Quiet(Run(w, es[..|es| - 1]), es[|es| - 1]))
  }

  /** The request this pass is about to send is refused as stale. */
  predicate StaleAt(w: World, f: FlightId) {
    f in w.flights && w.flights[f].phase.Ready? &&
    var it := w.flights[f].phase.item;
    RecordReading(w.server, it.target, it.raw, it.expectedVersion).1.AnswerStale?
  }

  // ---- What a quiet run keeps --------------------------------------------------

  ghost predicate DistinctTargets(w: World) {
    forall a, b :: a != b && Lookup(w.store.pending, a).Some? && Lookup(w.store.pending, b).Some? ==>
      Lookup(w.store.pending, a).value.target != Lookup(w.store.pending, b).value.target
  }

  function Due(w: World, it: Item): nat { VersionAt(w.server, it.target) }

  ghost predicate PassOk(w: World, f: FlightId)
    requires f in w.flights
  {
    var Flight(o, phase) := w.flights[f];
    var it := phase.item;
    var m := RememberedBy(w, o);
    Lookup(w.store.pending, it.id).Some? &&
    var current := Lookup(w.store.pending, it.id).value;
    && current.target == it.target
    && current.leaseOwner == Some(o)
    && it.generation <= current.generation
    && match phase {
         case Claimed(_) =>
           it.expectedVersion == current.expectedVersion
           && (it.id in m ==> m[it.id].generation <= it.generation
                              && (m[it.id].generation == it.generation ==> m[it.id].version == Some(Due(w, it))))
         case Ready(_) => it.expectedVersion == current.expectedVersion == Due(w, it) && (it.id in m ==> m[it.id].generation < it.generation)
         case Failed(_) => it.expectedVersion == current.expectedVersion == Due(w, it) && (it.id in m ==> m[it.id].generation < it.generation)
         case Answered(_, outcome) => if outcome.Applied? then outcome.version == Some(Due(w, it)) else current.expectedVersion == Due(w, it)
       }
  }

  ghost predicate HasAnswer(w: World, id: ItemId) {
    exists f :: f in w.flights && w.flights[f].phase.Answered? && w.flights[f].phase.item.id == id && w.flights[f].phase.outcome.Applied?
  }

  /** The item carries the server's version, or someone who will settle it knows that version. */
  ghost predicate VersionKnown(w: World, it: Item) {
    && it.expectedVersion <= Due(w, it)
    && (|| it.expectedVersion == Due(w, it)
        || HasAnswer(w, it.id)
        || (it.leaseOwner.Some? && it.id in RememberedBy(w, it.leaseOwner.value)
            && RememberedBy(w, it.leaseOwner.value)[it.id].version == Some(Due(w, it))))
  }

  ghost predicate MemoryOk(w: World, o: Owner, it: Item) {
    var m := RememberedBy(w, o);
    it.id in m ==>
      && m[it.id].generation <= it.generation
      && m[it.id].version.Some? && m[it.id].version.value <= Due(w, it)
      && (m[it.id].generation == it.generation ==> m[it.id].version.value == Due(w, it) && it.leaseOwner == Some(o))
  }

  predicate Holds(w: World, f: FlightId, id: ItemId) {
    f in w.flights && w.flights[f].phase.item.id == id
  }

  /** All that is kept about one item. */
  ghost predicate ItemOk(w: World, id: ItemId) {
    && (forall f, g :: Holds(w, f, id) && Holds(w, g, id) ==> f == g)
    && (forall f :: Holds(w, f, id) ==> PassOk(w, f))
    && (Lookup(w.store.pending, id).Some? ==>
          && Lookup(w.store.pending, id).value.id == id
          && VersionKnown(w, Lookup(w.store.pending, id).value)
          && forall o :: MemoryOk(w, o, Lookup(w.store.pending, id).value))
  }

  ghost predicate QuietInv(w: World) {
    Versioned(w.server) && DistinctTargets(w) && forall id :: ItemOk(w, id)
  }

  /** Nothing that concerns this item differs between the two states. */
  ghost predicate SameFor(w: World, w': World, id: ItemId) {
    && Lookup(w'.store.pending, id) == Lookup(w.store.pending, id)
    && (Lookup(w.store.pending, id).Some? ==> Due(w', Lookup(w.store.pending, id).value) == Due(w, Lookup(w.store.pending, id).value))
    && (forall o :: id in RememberedBy(w', o) <==> id in RememberedBy(w, o))
    && (forall o :: id in RememberedBy(w, o) ==> RememberedBy(w', o)[id] == RememberedBy(w, o)[id])
    && (forall f :: Holds(w', f, id) <==> Holds(w, f, id))
    && (forall f :: Holds(w, f, id) ==> w'.flights[f] == w.flights[f])
  }

  lemma SameForKeepsItem(w: World, w': World, id: ItemId)
    requires ItemOk(w, id) && SameFor(w, w', id)
    ensures ItemOk(w', id)
  {
    forall f | Holds(w', f, id) ensures PassOk(w', f) { assert Holds(w, f, id) && PassOk(w, f); }
    if Lookup(w'.store.pending, id).Some? {
      var it := Lookup(w.store.pending, id).value;
      assert VersionKnown(w, it);
      if HasAnswer(w, id) {
        var f :| f in w.flights && w.flights[f].phase.Answered? && w.flights[f].phase.item.id == id && w.flights[f].phase.outcome.Applied?;
        assert Holds(w, f, id) && w'.flights[f] == w.flights[f];
      }
      forall o ensures MemoryOk(w', o, it) { assert MemoryOk(w, o, it); }
    }
  }

  /** A step that touches one item only has to re-establish that item. */
  lemma OneItemStep(w: World, w': World, x: ItemId)
    requires QuietInv(w) && ItemOk(w', x) && DistinctTargets(w') && Versioned(w'.server)
    requires forall id :: id != x ==> SameFor(w, w', id)
    ensures QuietInv(w')
  {
    forall id ensures ItemOk(w', id) {
      if id != x { SameForKeepsItem(w, w', id); }
    }
  }

  // ---- One lemma per kind of step ------------------------------------------------

  lemma OnlyKnownItems(w: World, id: ItemId)
    requires Inv(w)
    ensures forall o :: id in RememberedBy(w, o) ==> id in w.targets
    ensures forall f :: Holds(w, f, id) ==> id in w.targets
  {
    forall o | id in RememberedBy(w, o) ensures id in w.targets {
      assert (id, w.remembered[o][id].generation) in w.accepted;
    }
  }

  lemma EditKeepsQuiet(w: World, w': World, item: Item)
    requires Inv(w) && QuietInv(w) && RecordsEdit(w, w', item)
    requires match Lookup(w.store.pending, item.id) {
      case Some(was) => item == was.(raw := item.raw, generation := was.generation + 1)
      case None => item.leaseOwner == None && item.expectedVersion == Due(w, item)
                   && (forall id :: Lookup(w.store.pending, id).Some? ==> Lookup(w.store.pending, id).value.target != item.target)
    }
    ensures QuietInv(w')
  {
    hide Inv, Known, Truthful;
    var x := item.id;
    assert ItemOk(w, x);
    assert forall o :: RememberedBy(w', o) == RememberedBy(w, o);
    OnlyKnownItems(w, x);
    forall f | Holds(w', f, x) ensures PassOk(w', f) { assert Holds(w, f, x) && PassOk(w, f); }
    forall o ensures MemoryOk(w', o, item) {
      if Lookup(w.store.pending, x).Some? { assert MemoryOk(w, o, Lookup(w.store.pending, x).value); }
    }
    if Lookup(w.store.pending, x).Some? {
      assert VersionKnown(w, Lookup(w.store.pending, x).value);
      assert HasAnswer(w, x) ==> HasAnswer(w', x);
    }
    assert VersionKnown(w', item);
    assert forall f, g :: Holds(w', f, x) && Holds(w', g, x) ==> Holds(w, f, x) && Holds(w, g, x);
    assert ItemOk(w', x);
    OneItemStep(w, w', x);
  }

  lemma EnqueueKeepsQuiet(w: World, target: Target, raw: Raw, expected: nat, disk: Disk)
    requires Inv(w) && QuietInv(w) && Quiet(w, Enqueue(target, raw, expected, disk))
    ensures QuietInv(StepEnqueue(w, target, raw, expected, disk))
  {
    if disk.readOk && disk.writeOk {
      var w' := StepEnqueue(w, target, raw, expected, disk);
      EnqueueEffect(w.store, w.nextId, target, raw, expected);
      EnqueueIsNew(w, target, raw, expected);
      var item := EnqueueStep(w.store, w.nextId, target, raw, expected, disk).1.item;
      var i := IndexOfTarget(w.store.pending, target);
      if i < |w.store.pending| { LookupIsTheItem(w.store.pending, i); }
      forall id | Lookup(w.store.pending, item.id).None? && Lookup(w.store.pending, id).Some?
        ensures Lookup(w.store.pending, id).value.target != target
      {
        LookupFinds(w.store.pending, id);
      }
      EditKeepsQuiet(w, w', item);
    }
  }

  lemma PassItem(w: World, f: FlightId)
    requires QuietInv(w) && f in w.flights
    ensures Holds(w, f, w.flights[f].phase.item.id) && ItemOk(w, w.flights[f].phase.item.id) && PassOk(w, f)
  {
    assert Holds(w, f, w.flights[f].phase.item.id);
  }

  /** What every step by a pass leaves alone: other items and other tabs' memories. */
  ghost predicate OnlyTouches(w: World, w': World, x: ItemId) {
    && (forall id :: id != x ==> Lookup(w'.store.pending, id) == Lookup(w.store.pending, id))
    && (Lookup(w'.store.pending, x).Some? ==>
          && Lookup(w.store.pending, x).Some?
          && Lookup(w'.store.pending, x).value.target == Lookup(w.store.pending, x).value.target)
    && (forall o, id :: id != x ==> (id in RememberedBy(w', o) <==> id in RememberedBy(w, o)))
    && (forall o, id :: id != x && id in RememberedBy(w, o) ==> RememberedBy(w', o)[id] == RememberedBy(w, o)[id])
    && (forall f, id :: id != x ==> (Holds(w', f, id) <==> Holds(w, f, id)))
    && (forall f, id :: id != x && Holds(w, f, id) ==> w'.flights[f] == w.flights[f])
  }

  lemma TouchKeepsQuiet(w: World, w': World, x: ItemId)
    requires QuietInv(w) && OnlyTouches(w, w', x) && ItemOk(w', x) && Versioned(w'.server)
    requires forall id :: id != x && Lookup(w.store.pending, id).Some? ==>
      Due(w', Lookup(w.store.pending, id).value) == Due(w, Lookup(w.store.pending, id).value)
    ensures QuietInv(w')
  {
    assert DistinctTargets(w');
    OneItemStep(w, w', x);
  }

  lemma ClaimKeepsQuiet(w: World, f: FlightId, o: Owner, id: ItemId, now: nat, disk: Disk)
    requires QuietInv(w) && Quiet(w, Claim(f, o, id, now, disk))
    ensures QuietInv(StepClaim(w, f, o, id, now, disk))
  {
    var (s, r) := ClaimStep(w.store, o, id, now, disk);
    if f !in w.flights && r.ClaimOk? {
      var w' := StepClaim(w, f, o, id, now, disk);
      assert ItemOk(w, id);
      forall j { LookupReplaced(w.store.pending, id, r.item, j); }
      assert forall g :: Holds(w', g, id) <==> g == f;
      assert VersionKnown(w, Lookup(w.store.pending, id).value);
      assert !HasAnswer(w, id);
      forall p ensures MemoryOk(w', p, r.item) { assert MemoryOk(w, p, Lookup(w.store.pending, id).value); }
      assert PassOk(w', f) by { assert MemoryOk(w, o, Lookup(w.store.pending, id).value); }
      assert ItemOk(w', id);
      TouchKeepsQuiet(w, w', id);
    }
  }

  lemma LandKeepsQuiet(w: World, f: FlightId)
    requires QuietInv(w) && (f in w.flights ==> !(w.flights[f].phase.Answered? && w.flights[f].phase.outcome.Applied?))
    ensures QuietInv(Land(w, f))
  {
    if f in w.flights {
      PassItem(w, f);
      var w', x := Land(w, f), w.flights[f].phase.item.id;
      forall g ensures !Holds(w', g, x) { assert Holds(w, g, x) ==> g == f; }
      var it := Lookup(w.store.pending, x).value;
      assert VersionKnown(w, it);
      assert !HasAnswer(w, x) by {
        if g :| g in w.flights && w.flights[g].phase.Answered? && w.flights[g].phase.item.id == x && w.flights[g].phase.outcome.Applied? {
          assert Holds(w, g, x);
        }
      }
      forall p ensures MemoryOk(w', p, it) { assert MemoryOk(w, p, it); }
      assert ItemOk(w', x);
      TouchKeepsQuiet(w, w', x);
    } else {
      assert Land(w, f) == w;
    }
  }

  /** Every step that only moves a pass: its item, its lease and every memory stay. */
  lemma MoveKeepsQuiet(w: World, f: FlightId, phase: Phase)
    requires QuietInv(w) && f in w.flights && phase.item == w.flights[f].phase.item
    requires !(w.flights[f].phase.Answered? && w.flights[f].phase.outcome.Applied?)
    requires PassOk(Move(w, f, phase), f)
    ensures QuietInv(Move(w, f, phase))
  {
    var w', x := Move(w, f, phase), phase.item.id;
    PassItem(w, f);
    NoAnswerBesides(w, f);
    forall g, h | Holds(w', g, x) && Holds(w', h, x) ensures g == h { assert Holds(w, g, x) && Holds(w, h, x); }
    forall g | Holds(w', g, x) ensures PassOk(w', g) { assert Holds(w, g, x) && Holds(w, f, x); }
    var it := Lookup(w.store.pending, x).value;
    assert VersionKnown(w, it);
    forall p ensures MemoryOk(w', p, it) { assert MemoryOk(w, p, it); }
    assert ItemOk(w', x);
    TouchKeepsQuiet(w, w', x);
  }

  /** Adopting a remembered version that is not older brings the item to the server's version. */
  lemma AdoptKeepsQuiet(w: World, f: FlightId)
    requires QuietInv(w) && f in w.flights && w.flights[f].phase.Claimed?
    requires var Flight(o, phase) := w.flights[f];
             var m, x := RememberedBy(w, o), phase.item.id;
             x in m && m[x].generation != phase.item.generation && m[x].version.Some?
             && phase.item.expectedVersion <= m[x].version.value
    ensures QuietInv(StepDecide(w, f, Disk(true, true)))
  {
    PassItem(w, f);
    NoAnswerBesides(w, f);
    var w' := StepDecide(w, f, Disk(true, true));
    var Flight(o, Claimed(snapshot)) := w.flights[f];
    var x := snapshot.id;
    var it := Lookup(w.store.pending, x).value;
    assert MemoryOk(w, o, it) && VersionKnown(w, it);
    var it' := it.(expectedVersion := RememberedBy(w, o)[x].version.value);
    forall j { LookupReplaced(w.store.pending, x, it', j); }
    assert w' == Move(w.(store := AdoptStep(w.store, o, x, it'.expectedVersion, Disk(true, true)).0), f, Ready(it'));
    forall g | Holds(w', g, x) ensures g == f { assert g == f || Holds(w, g, x); }
    forall p ensures MemoryOk(w', p, it') { assert MemoryOk(w, p, it); }
    assert PassOk(w', f);
    assert ItemOk(w', x);
    TouchKeepsQuiet(w, w', x);
  }

  /** In a quiet state, what a pass decides to send carries the server's version. */
  lemma DecideKeepsQuiet(w: World, f: FlightId, disk: Disk)
    requires Inv(w) && QuietInv(w) && !Lowers(w, f)
    ensures QuietInv(StepDecide(w, f, disk))
  {
    hide Inv;
    if At(w, f, (p: Phase) => p.Claimed?) {
      PassItem(w, f);
      NoAnswerBesides(w, f);
      var Flight(o, Claimed(snapshot)) := w.flights[f];
      var x, m := snapshot.id, RememberedBy(w, o);
      var it := Lookup(w.store.pending, x).value;
      assert MemoryOk(w, o, it) && VersionKnown(w, it);
      if x !in m {
        MoveKeepsQuiet(w, f, Ready(snapshot));
      } else if m[x].generation == snapshot.generation {
        MemoryFacts(w, o, x);
        MoveKeepsQuiet(w, f, Answered(snapshot, m[x].outcome));
      } else if AdoptStep(w.store, o, x, m[x].version.value, disk).1.AdoptUnavailable? {
        LandKeepsQuiet(w, f);
      } else {
        AdoptKeepsQuiet(w, f);
      }
    }
  }

  lemma MemoryFacts(w: World, o: Owner, id: ItemId)
    requires Inv(w) && id in RememberedBy(w, o)
    ensures RememberedBy(w, o)[id].outcome.Applied? && RememberedBy(w, o)[id].outcome.version == RememberedBy(w, o)[id].version
  {
  }

  lemma NoAnswerBesides(w: World, f: FlightId)
    requires QuietInv(w) && f in w.flights
    ensures HasAnswer(w, w.flights[f].phase.item.id) <==> w.flights[f].phase.Answered? && w.flights[f].phase.outcome.Applied?
  {
    var x := w.flights[f].phase.item.id;
    assert Holds(w, f, x) && ItemOk(w, x);
    if HasAnswer(w, x) {
      var g :| g in w.flights && w.flights[g].phase.Answered? && w.flights[g].phase.item.id == x && w.flights[g].phase.outcome.Applied?;
      assert Holds(w, g, x);
    }
  }

  /** Writes by others that leave the queued fields alone. */
  lemma ServerKeepsQuiet(w: World, db: Records)
    requires QuietInv(w) && QueuedUnwritten(w, db) && Versioned(db)
    ensures QuietInv(w.(server := db))
  {
    var w' := w.(server := db);
    forall id ensures ItemOk(w', id) { SameForKeepsItem(w, w', id); }
  }

  /** A tab closes: what only it knew of a pending item, the item carries already. */
  lemma ForgetKeepsQuiet(w: World, o: Owner)
    requires QuietInv(w) && Calm(w, Forget(o))
    ensures QuietInv(Step(w, Forget(o)))
  {
    var w' := Step(w, Forget(o));
    forall id ensures ItemOk(w', id) {
      assert ItemOk(w, id);
      forall f, g | Holds(w', f, id) && Holds(w', g, id) ensures f == g { assert Holds(w, f, id) && Holds(w, g, id); }
      forall f | Holds(w', f, id) ensures PassOk(w', f) { assert Holds(w, f, id) && PassOk(w, f); }
      if Lookup(w.store.pending, id).Some? {
        var it := Lookup(w.store.pending, id).value;
        assert VersionKnown(w, it);
        assert HasAnswer(w, id) ==> HasAnswer(w', id);
        forall p ensures MemoryOk(w', p, it) { assert MemoryOk(w, p, it); }
      }
    }
  }

  /** In a quiet state a request that is about to go is never stale. */
  lemma ReadyIsNeverStale(w: World, f: FlightId)
    requires QuietInv(w) && f in w.flights && w.flights[f].phase.Ready?
    ensures !StaleAt(w, f)
  {
    PassItem(w, f);
    var it := w.flights[f].phase.item;
    if it.target.componentId in w.server.components && w.server.components[it.target.componentId].ticketId == it.target.ticketId {
      VersionIsTheRows(w.server, it.target);
    }
  }

  lemma ReplyKeepsQuiet(w: World, f: FlightId, refused: Option<string>)
    requires QuietInv(w)
    ensures QuietInv(StepReply(w, f, refused))
  {
    if At(w, f, (p: Phase) => p.Ready?) {
      PassItem(w, f);
      ReadyIsNeverStale(w, f);
      var Flight(o, Ready(it)) := w.flights[f];
      if refused.Some? {
        MoveKeepsQuiet(w, f, Answered(it, Rejected(refused.value)));
      } else {
        var (db, answer) := RecordReading(w.server, it.target, it.raw, it.expectedVersion);
        if answer.AnswerOk? {
          AcceptedKeepsQuiet(w, f);
        } else {
          assert db.log == w.server.log && db.components == w.server.components;
          SameRowsVersioned(w.server, db);
          ServerKeepsQuiet(w, db);
          MoveKeepsQuiet(w.(server := db), f, Answered(it, ToReplayOutcome(answer, it.raw)));
        }
      }
    }
  }

  /** An accepted reading is one more write of its own field, and of no other. */
  lemma AcceptedAddsOne(db: Records, it: Item)
    requires Versioned(db) && RecordReading(db, it.target, it.raw, it.expectedVersion).1.AnswerOk?
    ensures var db' := RecordReading(db, it.target, it.raw, it.expectedVersion).0;
            && Versioned(db') && it.expectedVersion == VersionAt(db, it.target)
            && RecordReading(db, it.target, it.raw, it.expectedVersion).1.version == VersionAt(db', it.target)
            && forall t: Target ::
                 VersionAt(db', t) == VersionAt(db, t) + (if t == it.target then 1 else 0)
  {
    var claimed := db.(tickets := db.tickets[it.target.ticketId := Batching]);
    VersionIsTheRows(db, it.target);
    SameRowsVersioned(db, claimed);
    WriteFieldKeepsVersioned(claimed, it.target.componentId, it.target.which, it.raw.number.value);
    forall t: Target
      ensures VersionAt(RecordReading(db, it.target, it.raw, it.expectedVersion).0, t)
              == VersionAt(db, t) + (if t == it.target then 1 else 0)
    {
      WriteAddsOne(claimed, it.target.componentId, it.target.which, it.raw.number.value, t);
    }
  }

  lemma AcceptedKeepsQuiet(w: World, f: FlightId)
    requires QuietInv(w) && f in w.flights && w.flights[f].phase.Ready?
    requires var it := w.flights[f].phase.item; RecordReading(w.server, it.target, it.raw, it.expectedVersion).1.AnswerOk?
    ensures QuietInv(StepReply(w, f, None))
  {
    PassItem(w, f);
    var Flight(o, Ready(it)) := w.flights[f];
    var x := it.id;
    var w' := StepReply(w, f, None);
    var current := Lookup(w.store.pending, x).value;
    AcceptedAddsOne(w.server, it);
    forall g, h | Holds(w', g, x) && Holds(w', h, x) ensures g == h { assert Holds(w, g, x) && Holds(w, h, x); }
    forall g | Holds(w', g, x) ensures PassOk(w', g) { assert Holds(w, g, x) && Holds(w, f, x); }
    assert f in w'.flights && w'.flights[f].phase.Answered? && w'.flights[f].phase.item == it && w'.flights[f].phase.outcome.Applied?;
    assert HasAnswer(w', x);
    assert MemoryOk(w, o, current);
    forall p ensures MemoryOk(w', p, current) { assert MemoryOk(w, p, current); }
    assert ItemOk(w', x);
    TouchKeepsQuiet(w, w', x);
  }

  lemma ReleaseKeepsQuiet(w: World, f: FlightId, disk: Disk)
    requires QuietInv(w)
    ensures QuietInv(StepRelease(w, f, disk))
  {
    if At(w, f, (p: Phase) => p.Failed?) {
      PassItem(w, f);
      NoAnswerBesides(w, f);
      var Flight(o, Failed(it)) := w.flights[f];
      var x := it.id;
      var current := Lookup(w.store.pending, x).value;
      if ReleaseStep(w.store, o, it, disk) == w.store {
        LandKeepsQuiet(w, f);
      } else {
        var w' := StepRelease(w, f, disk);
        var freed := current.(leaseOwner := None, leaseExpiresAt := None);
        forall j { LookupReplaced(w.store.pending, x, freed, j); }
        forall g ensures !Holds(w', g, x) { assert Holds(w, g, x) ==> g == f; }
        forall p ensures MemoryOk(w', p, freed) { assert MemoryOk(w, p, current) && MemoryOk(w, o, current); }
        assert ItemOk(w', x);
        TouchKeepsQuiet(w, w', x);
      }
    }
  }

  /** A settlement changes no other item, and never an item's target. */
  lemma SettleEffect(s: Store, o: Owner, it: Item, outcome: Outcome, disk: Disk)
    ensures var s' := SettleStep(s, o, it, outcome, disk).0;
            && (forall id :: id != it.id ==> Lookup(s'.pending, id) == Lookup(s.pending, id))
            && (Lookup(s'.pending, it.id).Some? ==>
                  && Lookup(s.pending, it.id).Some?
                  && Lookup(s'.pending, it.id).value.target == Lookup(s.pending, it.id).value.target)
  {
    if Lookup(s.pending, it.id).Some? {
      var current := Lookup(s.pending, it.id).value;
      LookupFinds(s.pending, it.id);
      var kept := current.(leaseOwner := None, leaseExpiresAt := None, expectedVersion :=
        if outcome.Applied? && outcome.version.Some? then outcome.version.value else current.expectedVersion);
      forall j { LookupReplaced(s.pending, it.id, kept, j); }
      forall j { LookupWithout(s.pending, it.id, j); }
    }
  }

  lemma SettlementTouchesOne(w: World, f: FlightId, disk: Disk)
    requires f in w.flights && w.flights[f].phase.Answered?
    ensures OnlyTouches(w, StepSettle(w, f, disk), w.flights[f].phase.item.id)
    ensures forall id :: id != w.flights[f].phase.item.id && Lookup(w.store.pending, id).Some? ==>
              Due(StepSettle(w, f, disk), Lookup(w.store.pending, id).value) == Due(w, Lookup(w.store.pending, id).value)
  {
    var Flight(o, Answered(it, outcome)) := w.flights[f];
    SettleEffect(w.store, o, it, outcome, disk);
    hide SettleStep, Lookup;
  }

  lemma StoredSettlementItem(w: World, f: FlightId)
    requires QuietInv(w) && f in w.flights && w.flights[f].phase.Answered?
    ensures ItemOk(StepSettle(w, f, Disk(true, true)), w.flights[f].phase.item.id)
  {
    PassItem(w, f);
    NoAnswerBesides(w, f);
    var Flight(o, Answered(it, outcome)) := w.flights[f];
    var x := it.id;
    var current := Lookup(w.store.pending, x).value;
    var w' := StepSettle(w, f, Disk(true, true));
    assert VersionKnown(w, current) && MemoryOk(w, o, current);
    forall g ensures !Holds(w', g, x) { assert Holds(w, g, x) ==> g == f; }
    if current.generation == it.generation {
      forall j { LookupWithout(w.store.pending, x, j); }
      assert Lookup(w'.store.pending, x).None?;
    } else {
      var kept := current.(leaseOwner := None, leaseExpiresAt := None, expectedVersion :=
        if outcome.Applied? && outcome.version.Some? then outcome.version.value else current.expectedVersion);
      forall j { LookupReplaced(w.store.pending, x, kept, j); }
      assert Lookup(w'.store.pending, x) == Some(kept);
      forall p ensures MemoryOk(w', p, kept) { assert MemoryOk(w, p, current); }
    }
  }

  lemma FailedSettlementItem(w: World, f: FlightId, disk: Disk)
    requires QuietInv(w) && f in w.flights && w.flights[f].phase.Answered? && !(disk.readOk && disk.writeOk)
    ensures ItemOk(StepSettle(w, f, disk), w.flights[f].phase.item.id)
  {
    PassItem(w, f);
    NoAnswerBesides(w, f);
    var Flight(o, Answered(it, outcome)) := w.flights[f];
    var x := it.id;
    var current := Lookup(w.store.pending, x).value;
    var w' := StepSettle(w, f, disk);
    assert VersionKnown(w, current) && MemoryOk(w, o, current);
    assert w'.store == w.store;
    forall g ensures !Holds(w', g, x) { assert Holds(w, g, x) ==> g == f; }
    forall p ensures MemoryOk(w', p, current) { assert MemoryOk(w, p, current); }
    assert VersionKnown(w', current);
  }

  lemma SettleKeepsQuiet(w: World, f: FlightId, disk: Disk)
    requires QuietInv(w)
    ensures QuietInv(StepSettle(w, f, disk))
  {
    if At(w, f, (p: Phase) => p.Answered?) {
      if disk.readOk && disk.writeOk { StoredSettlementItem(w, f); } else { FailedSettlementItem(w, f, disk); }
      SettlementTouchesOne(w, f, disk);
      hide ItemOk, OnlyTouches, StepSettle;
      TouchKeepsQuiet(w, StepSettle(w, f, disk), w.flights[f].phase.item.id);
    }
  }

  lemma StepKeepsQuiet(w: World, e: Event)
    requires Inv(w) && QuietInv(w) && Quiet(w, e)
    ensures QuietInv(Step(w, e))
  {
    hide Inv, QuietInv;
    match e
    case Enqueue(target, raw, expected, disk) => EnqueueKeepsQuiet(w, target, raw, expected, disk);
    case Dismiss(id, disk) => DismissKeepsQuiet(w, id, disk);
    case Claim(f, o, id, now, disk) => ClaimKeepsQuiet(w, f, o, id, now, disk);
    case Decide(f, disk) => DecideKeepsQuiet(w, f, disk);
    case Reply(f, refused) => ReplyKeepsQuiet(w, f, refused);
    case Fail(f, reached) => FailKeepsQuiet(w, f, reached);
    case Release(f, disk) => ReleaseKeepsQuiet(w, f, disk);
    case Settle(f, disk) => SettleKeepsQuiet(w, f, disk);
    case Abandon(f) => LandKeepsQuiet(w, f);
    case Forget(o) => ForgetKeepsQuiet(w, o);
    case Server(op) =>
      assert Versioned(w.server) by { assert QuietInv(w); ServerVersioned(w); }
      ApplyKeepsVersioned(w.server, op);
      ServerKeepsQuiet(w, Apply(w.server, op));
  }

  lemma DismissKeepsQuiet(w: World, id: ItemId, disk: Disk)
    requires QuietInv(w)
    ensures QuietInv(Step(w, Dismiss(id, disk)))
  {
    var w' := Step(w, Dismiss(id, disk));
    forall j ensures ItemOk(w', j) { SameForKeepsItem(w, w', j); }
  }

  lemma ServerVersioned(w: World)
    requires QuietInv(w)
    ensures Versioned(w.server)
  {
  }

  /** The request did not arrive, or the server took no write from it. */
  lemma FailKeepsQuiet(w: World, f: FlightId, reached: bool)
    requires QuietInv(w) && Calm(w, Fail(f, reached))
    ensures QuietInv(StepFail(w, f, reached))
  {
    if At(w, f, (p: Phase) => p.Ready?) {
      var it, db := w.flights[f].phase.item, StepFail(w, f, reached).server;
      ReadingKeepsVersioned(w.server, it);
      ServerKeepsQuiet(w, db);
      var w1 := w.(server := db);
      PassItem(w1, f);
      MoveKeepsQuiet(w1, f, Failed(it));
    }
  }

  lemma ReadingKeepsVersioned(db: Records, it: Item)
    requires Versioned(db)
    ensures Versioned(RecordReading(db, it.target, it.raw, it.expectedVersion).0)
  {
    if RecordReading(db, it.target, it.raw, it.expectedVersion).1.AnswerOk? {
      AcceptedAddsOne(db, it);
    } else {
      SameRowsVersioned(db, RecordReading(db, it.target, it.raw, it.expectedVersion).0);
    }
  }

  lemma {:induction false} QuietRunKeepsQuiet(server: Records, es: seq<Event>)
    requires Versioned(server) && QuietRun(Empty(server), es)
    ensures Inv(Run(Empty(server), es)) && QuietInv(Run(Empty(server), es))
    decreases |es|
  {
    hide Inv, Quiet, Step;
    EmptyIsInv(server);
    RunKeepsInv(Empty(server), es);
    if es != [] {
      QuietRunKeepsQuiet(server, es[..|es| - 1]);
      StepKeepsQuiet(Run(Empty(server), es[..|es| - 1]), es[|es| - 1]);
    }
  }

  // ---- Main results ------------------------------------------------------------

  /** No false conflict: in a quiet run no request is ever refused as stale. */
  lemma NoFalseConflict(server: Records, es: seq<Event>, f: FlightId)
    requires Versioned(server) && QuietRun(Empty(server), es)
    ensures !StaleAt(Run(Empty(server), es), f)
  {
    hide Inv;
    QuietRunKeepsQuiet(server, es);
    var w := Run(Empty(server), es);
    if f in w.flights && w.flights[f].phase.Ready? { ReadyIsNeverStale(w, f); }
  }

  /** The form and the ticket would let this reading through; only the version is in question. */
  predicate Acceptable(db: Records, it: Item) {
    && |it.raw.text| != 0 && it.raw.number.Some? && it.raw.number.value >= 0.0
    && (it.target.which.Moisture? ==> it.raw.number.value <= MOISTURE_PCT_MAX)
    && it.target.componentId in db.components && db.components[it.target.componentId].ticketId == it.target.ticketId
    && Editable(db, it.target.ticketId)
  }

  /**
   The condition is exact. After a quiet run, let a pass decide what to send
   and storage work: the request it sends is refused as stale if and only if the
   tab's remembered version is older than the one the item carries.
   */
  lemma StaleExactlyWhenLowered(server: Records, es: seq<Event>, f: FlightId)
    requires Versioned(server) && QuietRun(Empty(server), es)
    requires var w' := Step(Run(Empty(server), es), Decide(f, Disk(true, true)));
             f in w'.flights && w'.flights[f].phase.Ready? && Acceptable(w'.server, w'.flights[f].phase.item)
    requires At(Run(Empty(server), es), f, (p: Phase) => p.Claimed?)
    ensures StaleAt(Step(Run(Empty(server), es), Decide(f, Disk(true, true))), f) <==> Lowers(Run(Empty(server), es), f)
  {
    hide Inv;
    QuietRunKeepsQuiet(server, es);
    var w := Run(Empty(server), es);
    if Lowers(w, f) {
      PassItem(w, f);
      var Flight(o, Claimed(it)) := w.flights[f];
      VersionIsTheRows(w.server, it.target);
      assert VersionKnown(w, Lookup(w.store.pending, it.id).value);
    } else {
      DecideKeepsQuiet(w, f, Disk(true, true));
      ReadyIsNeverStale(Step(w, Decide(f, Disk(true, true))), f);
    }
  }

  // ---- One tab -------------------------------------------------------------------

  ghost predicate CalmRun(w: World, es: seq<Event>)
    decreases |es|
  {
    es == [] || (CalmRun(w, es[..|es| - 1]) && Calm(Run(w, es[..|es| - 1]), es[|es| - 1]))
  }

  ghost predicate OneTab(es: seq<Event>, o: Owner) {
    forall i :: 0 <= i < |es| && es[i].Claim? ==> es[i].owner == o
  }

  /** What the only tab remembers of a pending item is the server's version, or about to be replaced. */
  ghost predicate FreshMemory(w: World, o: Owner, id: ItemId) {
    id in RememberedBy(w, o) && Lookup(w.store.pending, id).Some? ==>
      RememberedBy(w, o)[id].version == Some(Due(w, Lookup(w.store.pending, id).value)) || HasAnswer(w, id)
  }

  ghost predicate OneTabInv(w: World, o: Owner) {
    && (forall f :: f in w.flights ==> w.flights[f].owner == o)
    && (forall id :: FreshMemory(w, o, id))
  }

  lemma OneTabDoesNotLower(w: World, o: Owner, f: FlightId)
    requires QuietInv(w) && OneTabInv(w, o)
    ensures !Lowers(w, f)
  {
    if f in w.flights && w.flights[f].phase.Claimed? {
      var id := w.flights[f].phase.item.id;
      PassItem(w, f);
      NoAnswerBesides(w, f);
      assert FreshMemory(w, o, id) && VersionKnown(w, Lookup(w.store.pending, id).value);
    }
  }

  lemma AnswersStay(w: World, w': World, id: ItemId)
    requires forall f :: f in w.flights && w.flights[f].phase.item.id == id ==> f in w'.flights && w'.flights[f] == w.flights[f]
    ensures HasAnswer(w, id) ==> HasAnswer(w', id)
  {
  }

  /** A step that only moves one pass keeps the memories fresh for every other item. */
  lemma FreshElsewhere(w: World, w': World, o: Owner, x: ItemId, id: ItemId)
    requires FreshMemory(w, o, id) && id != x
    requires Lookup(w'.store.pending, id) == Lookup(w.store.pending, id)
    requires Lookup(w.store.pending, id).Some? ==> Due(w', Lookup(w.store.pending, id).value) == Due(w, Lookup(w.store.pending, id).value)
    requires id in RememberedBy(w', o) ==> id in RememberedBy(w, o) && RememberedBy(w', o)[id] == RememberedBy(w, o)[id]
    requires forall f :: f in w.flights && w.flights[f].phase.item.id == id ==> f in w'.flights && w'.flights[f] == w.flights[f]
    ensures FreshMemory(w', o, id)
  {
    AnswersStay(w, w', id);
  }

  lemma EnqueueKeepsFresh(w: World, o: Owner, target: Target, raw: Raw, expected: nat, disk: Disk)
    requires Inv(w) && OneTabInv(w, o)
    ensures OneTabInv(StepEnqueue(w, target, raw, expected, disk), o)
  {
    if disk.readOk && disk.writeOk {
      var w' := StepEnqueue(w, target, raw, expected, disk);
      EnqueueEffect(w.store, w.nextId, target, raw, expected);
      var item := EnqueueStep(w.store, w.nextId, target, raw, expected, disk).1.item;
      OnlyKnownItems(w, item.id);
      assert RememberedBy(w', o) == RememberedBy(w, o);
      forall id ensures FreshMemory(w', o, id) {
        assert FreshMemory(w, o, id);
        AnswersStay(w, w', id);
      }
    }
  }

  lemma ClaimKeepsFresh(w: World, o: Owner, f: FlightId, id: ItemId, now: nat, disk: Disk)
    requires OneTabInv(w, o)
    ensures OneTabInv(StepClaim(w, f, o, id, now, disk), o)
  {
    var w' := StepClaim(w, f, o, id, now, disk);
    var (s, r) := ClaimStep(w.store, o, id, now, disk);
    if f !in w.flights && r.ClaimOk? {
      LookupFinds(w.store.pending, id);
      forall j ensures FreshMemory(w', o, j) {
        assert FreshMemory(w, o, j);
        LookupReplaced(w.store.pending, id, r.item, j);
        AnswersStay(w, w', j);
      }
    }
  }

  lemma DecideKeepsFresh(w: World, o: Owner, f: FlightId, disk: Disk)
    requires QuietInv(w) && OneTabInv(w, o)
    ensures OneTabInv(StepDecide(w, f, disk), o)
  {
    if At(w, f, (p: Phase) => p.Claimed?) {
      var w' := StepDecide(w, f, disk);
      PassItem(w, f);
      NoAnswerBesides(w, f);
      var x := w.flights[f].phase.item.id;
      var it := Lookup(w.store.pending, x).value;
      forall id ensures FreshMemory(w', o, id) {
        assert FreshMemory(w, o, id);
        if x in RememberedBy(w, o) && RememberedBy(w, o)[x].version.Some? {
          LookupReplaced(w.store.pending, x, it.(expectedVersion := RememberedBy(w, o)[x].version.value), id);
        }
        if id != x { AnswersStay(w, w', id); }
      }
    }
  }

  lemma ReplyKeepsFresh(w: World, o: Owner, f: FlightId, refused: Option<string>)
    requires QuietInv(w) && OneTabInv(w, o)
    ensures OneTabInv(StepReply(w, f, refused), o)
  {
    if At(w, f, (p: Phase) => p.Ready?) {
      var w' := StepReply(w, f, refused);
      PassItem(w, f);
      NoAnswerBesides(w, f);
      ReadyIsNeverStale(w, f);
      var it := w.flights[f].phase.item;
      if refused.None? && RecordReading(w.server, it.target, it.raw, it.expectedVersion).1.AnswerOk? {
        AcceptedAddsOne(w.server, it);
      } else {
        assert w'.server.log == w.server.log;
      }
      forall id ensures FreshMemory(w', o, id) {
        assert FreshMemory(w, o, id);
        if id != it.id {
          AnswersStay(w, w', id);
        } else if w'.server != w.server && VersionAt(w'.server, it.target) != VersionAt(w.server, it.target) {
          assert refused.None? && RecordReading(w.server, it.target, it.raw, it.expectedVersion).1.AnswerOk?;
          assert f in w'.flights && w'.flights[f].phase.Answered? && w'.flights[f].phase.item == it && w'.flights[f].phase.outcome.Applied?;
        }
      }
    }
  }

  lemma LandKeepsFresh(w: World, w': World, o: Owner, f: FlightId)
    requires QuietInv(w) && OneTabInv(w, o) && f in w.flights && !(w.flights[f].phase.Answered? && w.flights[f].phase.outcome.Applied?)
    requires w' == Land(w, f).(store := w'.store)
    requires forall id :: match Lookup(w'.store.pending, id)
                          case None => true
                          case Some(it) => Lookup(w.store.pending, id).Some? && Lookup(w.store.pending, id).value.target == it.target
    ensures OneTabInv(w', o)
  {
    PassItem(w, f);
    NoAnswerBesides(w, f);
    forall id ensures FreshMemory(w', o, id) {
      assert FreshMemory(w, o, id);
      if id != w.flights[f].phase.item.id { AnswersStay(w, w', id); }
    }
  }

  lemma ReleaseKeepsFresh(w: World, o: Owner, f: FlightId, disk: Disk)
    requires QuietInv(w) && OneTabInv(w, o)
    ensures OneTabInv(StepRelease(w, f, disk), o)
  {
    if At(w, f, (p: Phase) => p.Failed?) {
      PassItem(w, f);
      var x := w.flights[f].phase.item.id;
      var it := Lookup(w.store.pending, x).value;
      forall j { LookupReplaced(w.store.pending, x, it.(leaseOwner := None, leaseExpiresAt := None), j); }
      LandKeepsFresh(w, StepRelease(w, f, disk), o, f);
    }
  }

  lemma SettleKeepsFresh(w: World, o: Owner, f: FlightId, disk: Disk)
    requires QuietInv(w) && OneTabInv(w, o)
    ensures OneTabInv(StepSettle(w, f, disk), o)
  {
    if At(w, f, (p: Phase) => p.Answered?) {
      var w' := StepSettle(w, f, disk);
      PassItem(w, f);
      NoAnswerBesides(w, f);
      var Flight(_, Answered(it, outcome)) := w.flights[f];
      var x := it.id;
      var current := Lookup(w.store.pending, x).value;
      var kept := current.(leaseOwner := None, leaseExpiresAt := None, expectedVersion :=
        if outcome.Applied? && outcome.version.Some? then outcome.version.value else current.expectedVersion);
      assert FreshMemory(w', o, x) by {
        assert FreshMemory(w, o, x);
        LookupReplaced(w.store.pending, x, kept, x);
        LookupWithout(w.store.pending, x, x);
      }
      forall id | id != x ensures FreshMemory(w', o, id) {
        assert FreshMemory(w, o, id);
        LookupReplaced(w.store.pending, x, kept, id);
        LookupWithout(w.store.pending, x, id);
        FreshElsewhere(w, w', o, x, id);
      }
    }
  }

  lemma StepKeepsFresh(w: World, e: Event, o: Owner)
    requires Inv(w) && QuietInv(w) && OneTabInv(w, o) && Calm(w, e) && (e.Claim? ==> e.owner == o)
    ensures OneTabInv(Step(w, e), o)
  {
    hide Inv;
    match e
    case Enqueue(target, raw, expected, disk) => EnqueueKeepsFresh(w, o, target, raw, expected, disk);
    case Dismiss(id, disk) => UnmovedKeepsFresh(w, Step(w, e), o);
    case Claim(f, _, id, now, disk) => ClaimKeepsFresh(w, o, f, id, now, disk);
    case Decide(f, disk) => DecideKeepsFresh(w, o, f, disk);
    case Reply(f, refused) => ReplyKeepsFresh(w, o, f, refused);
    case Fail(f, _) =>
      if At(w, f, (p: Phase) => p.Ready?) {
        LandKeepsFresh(w, Land(w, f), o, f);
        UnmovedKeepsFresh(Land(w, f), Step(w, e), o);
      }
    case Release(f, disk) => ReleaseKeepsFresh(w, o, f, disk);
    case Settle(f, disk) => SettleKeepsFresh(w, o, f, disk);
    case Abandon(f) => if f in w.flights { LandKeepsFresh(w, Land(w, f), o, f); } else { assert Land(w, f) == w; }
    case Forget(p) =>
      forall id ensures FreshMemory(Step(w, e), o, id) {
        assert FreshMemory(w, o, id);
        AnswersStay(w, Step(w, e), id);
      }
    case Server(op) => UnmovedKeepsFresh(w, Step(w, e), o);
  }

  lemma UnmovedKeepsFresh(w: World, w': World, o: Owner)
    requires OneTabInv(w, o)
    requires w'.store.pending == w.store.pending && w'.remembered == w.remembered
    requires QueuedUnwritten(w, w'.server)
    requires forall f :: f in w'.flights ==> w'.flights[f].owner == o
    requires forall f :: f in w.flights ==> f in w'.flights && w'.flights[f] == w.flights[f]
    ensures OneTabInv(w', o)
  {
    forall id ensures FreshMemory(w', o, id) {
      assert FreshMemory(w, o, id);
      AnswersStay(w, w', id);
    }
  }

  /** With a single tab running one pass at a time, every calm run is quiet: no false conflict at all. */
  lemma {:induction false} OneTabIsQuiet(server: Records, es: seq<Event>, o: Owner)
    requires Versioned(server) && CalmRun(Empty(server), es) && OneTab(es, o)
    ensures QuietRun(Empty(server), es) && OneTabInv(Run(Empty(server), es), o)
    decreases |es|
  {
    hide Inv, QuietInv, Calm, Step;
    if es != [] {
      var before, e := es[..|es| - 1], es[|es| - 1];
      OneTabIsQuiet(server, before, o);
      QuietRunKeepsQuiet(server, before);
      var w := Run(Empty(server), before);
      if e.Decide? { OneTabDoesNotLower(w, o, e.flight); }
      StepKeepsFresh(w, e, o);
    }
  }
}
