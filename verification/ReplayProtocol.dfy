/**
 The replay protocol: any number of tabs over one stored queue, any number of
 flushes in each tab, and the versioned server. An event is what happens while
 the lock is held once, or one exchange with the server, so every interleaving
 of the flush loops, edits, lease expiry, failed storage and other writers is a
 run. The history fields (targets, accepted, settled, dismissed) only record.
 */
module ReplayProtocol {
  import opened Wrappers
  import opened ComponentEdits
  import opened OfflineQueue

  type FlightId = nat

  /** Where one pass of the flush loop stands with the item it took. */
  datatype Phase =
    | Claimed(item: Item)
    | Ready(item: Item)
    | Failed(item: Item)
    | Answered(item: Item, outcome: Outcome)

  datatype Flight = Flight(owner: Owner, phase: Phase)

  datatype World = World(
    store: Store,
    remembered: map<Owner, map<ItemId, Remembered>>,
    flights: map<FlightId, Flight>,
    server: Records,
    nextId: ItemId,
    targets: map<ItemId, Target>,
    accepted: map<(ItemId, nat), Raw>,
    settled: map<(ItemId, nat), Outcome>,
    dismissed: set<(ItemId, nat)>)

  datatype Event =
    | Enqueue(target: Target, raw: Raw, expected: nat, disk: Disk)
    | Dismiss(id: ItemId, disk: Disk)
    | Claim(flight: FlightId, owner: Owner, id: ItemId, now: nat, disk: Disk)
    | Decide(flight: FlightId, disk: Disk)
    | Reply(flight: FlightId, refused: Option<string>)
    | Fail(flight: FlightId, reached: bool)
    | Release(flight: FlightId, disk: Disk)
    | Settle(flight: FlightId, disk: Disk)
    | Abandon(flight: FlightId)
    | Forget(owner: Owner)
    | Server(op: Op)

  function Empty(server: Records): World {
    World(Store([], []), map[], map[], server, 0, map[], map[], map[], {})
  }

  /** The copies of an item on the rejected list, by the pair they carry. */
  function CopiesOf(rejected: seq<RejectedItem>, id: ItemId): set<(ItemId, nat)> {
    set i | 0 <= i < |rejected| && rejected[i].item.id == id :: (id, rejected[i].item.generation)
  }

  function RememberedBy(w: World, o: Owner): map<ItemId, Remembered> {
    if o in w.remembered then w.remembered[o] else map[]
  }

  predicate At(w: World, f: FlightId, p: Phase -> bool) {
    f in w.flights && p(w.flights[f].phase)
  }

  function Land(w: World, f: FlightId): World {
    w.(flights := w.flights - {f})
  }

  function Move(w: World, f: FlightId, phase: Phase): World
    requires f in w.flights
  {
    w.(flights := w.flights[f := w.flights[f].(phase := phase)])
  }

  function StepEnqueue(w: World, target: Target, raw: Raw, expected: nat, disk: Disk): World {
    var (s, r) := EnqueueStep(w.store, w.nextId, target, raw, expected, disk);
    if r.EnqueueUnavailable? then w
    else w.(store := s, nextId := w.nextId + 1,
            targets := w.targets[r.item.id := r.item.target],
            accepted := w.accepted[(r.item.id, r.item.generation) := r.item.raw])
  }

  function StepClaim(w: World, f: FlightId, o: Owner, id: ItemId, now: nat, disk: Disk): World {
    var (s, r) := ClaimStep(w.store, o, id, now, disk);
    if f in w.flights || !r.ClaimOk? then w
    else w.(store := s, flights := w.flights[f := Flight(o, Claimed(r.item))])
  }

  /** Settle from the remembered result, or adopt its version, or go and send. */
  function StepDecide(w: World, f: FlightId, disk: Disk): World {
    if !At(w, f, (p: Phase) => p.Claimed?) then w
    else
      var o, snapshot := w.flights[f].owner, w.flights[f].phase.item;
      var m := RememberedBy(w, o);
      if snapshot.id in m && m[snapshot.id].generation == snapshot.generation then
        Move(w, f, Answered(snapshot, m[snapshot.id].outcome))
      else if snapshot.id in m && m[snapshot.id].version.Some? then
        var (s, r) := AdoptStep(w.store, o, snapshot.id, m[snapshot.id].version.value, disk);
        match r
        case AdoptUnavailable => Land(w, f)
        case AdoptSkip => Move(w, f, Ready(snapshot))
        case Rebased(item) => Move(w.(store := s), f, Ready(item))
      else Move(w, f, Ready(snapshot))
  }

  function StepReply(w: World, f: FlightId, refused: Option<string>): World {
    if !At(w, f, (p: Phase) => p.Ready?) then w
    else
      var it := w.flights[f].phase.item;
      if refused.Some? then Move(w, f, Answered(it, ToReplayOutcome(AnswerRefused(refused.value), it.raw)))
      else
        var (db, answer) := RecordReading(w.server, it.target, it.raw, it.expectedVersion);
        Move(w.(server := db), f, Answered(it, ToReplayOutcome(answer, it.raw)))
  }

  /** The handler throws; `reached` says the server had already handled the request. */
  function StepFail(w: World, f: FlightId, reached: bool): World {
    if !At(w, f, (p: Phase) => p.Ready?) then w
    else
      var it := w.flights[f].phase.item;
      var db := if reached then RecordReading(w.server, it.target, it.raw, it.expectedVersion).0 else w.server;
      Move(w.(server := db), f, Failed(it))
  }

  function StepRelease(w: World, f: FlightId, disk: Disk): World {
    if !At(w, f, (p: Phase) => p.Failed?) then w
    else Land(w.(store := ReleaseStep(w.store, w.flights[f].owner, w.flights[f].phase.item, disk)), f)
  }

  function StepSettle(w: World, f: FlightId, disk: Disk): World {
    if !At(w, f, (p: Phase) => p.Answered?) then w
    else
      var Flight(o, Answered(it, outcome)) := w.flights[f];
      var (s, r) := SettleStep(w.store, o, it, outcome, disk);
      Land(w.(store := s,
              remembered := w.remembered[o := RememberStep(RememberedBy(w, o), it, outcome, r)],
              settled := if r == Settled then w.settled[(it.id, it.generation) := outcome] else w.settled), f)
  }

  function Step(w: World, e: Event): World {
    match e
    case Enqueue(target, raw, expected, disk) => StepEnqueue(w, target, raw, expected, disk)
    case Dismiss(id, disk) =>
      w.(store := DismissStep(w.store, id, disk),
         dismissed := if disk.readOk && disk.writeOk then w.dismissed + CopiesOf(w.store.rejected, id) else w.dismissed)
    case Claim(f, o, id, now, disk) => StepClaim(w, f, o, id, now, disk)
    case Decide(f, disk) => StepDecide(w, f, disk)
    case Reply(f, refused) => StepReply(w, f, refused)
    case Fail(f, reached) => StepFail(w, f, reached)
    case Release(f, disk) => StepRelease(w, f, disk)
    case Settle(f, disk) => StepSettle(w, f, disk)
    case Abandon(f) => Land(w, f)
    case Forget(o) => w.(remembered := w.remembered - {o})
    case Server(op) => w.(server := Apply(w.server, op))
  }

  function Run(w: World, es: seq<Event>): World
    decreases |es|
  {
    if es == [] then w else Step(Run(w, es[..|es| - 1]), es[|es| - 1])
  }

  // ---- What every step keeps ---------------------------------------------------

  /** The server field held this number at some version. */
  ghost predicate Held(log: seq<Accepted>, t: Target, number: Option<real>) {
    exists k :: 0 <= k < |log| && log[k].componentId == t.componentId && log[k].which == t.which && Some(log[k].value) == number
  }

  ghost predicate Known(w: World, it: Item) {
    && it.id in w.targets && w.targets[it.id] == it.target
    && (it.id, it.generation) in w.accepted && w.accepted[(it.id, it.generation)] == it.raw
  }

  ghost predicate PendingOk(w: World) {
    && DistinctIds(w.store.pending)
    && (forall id :: Lookup(w.store.pending, id).Some? ==>
         Lookup(w.store.pending, id).value.id == id && Known(w, Lookup(w.store.pending, id).value))
  }

  ghost predicate IsPending(w: World, k: (ItemId, nat)) {
    Lookup(w.store.pending, k.0).Some? && Lookup(w.store.pending, k.0).value.generation == k.1
  }

  ghost predicate AcceptedOk(w: World) {
    && (forall id :: id in w.targets ==> id < w.nextId)
    && (forall k :: k in w.accepted ==> k.0 in w.targets)
    && (forall k :: k in w.accepted && Lookup(w.store.pending, k.0).Some? ==>
         k.1 <= Lookup(w.store.pending, k.0).value.generation)
    && (forall k {:trigger IsPending(w, k)} :: k in w.accepted ==> IsPending(w, k) || (k.0, k.1 + 1) in w.accepted || k in w.settled)
  }

  /** APPLIED is only ever said of a number the server held. */
  ghost predicate Truthful(w: World, id: ItemId, raw: Raw, outcome: Outcome) {
    && !outcome.Retryable?
    && (outcome.Applied? ==> id in w.targets && raw.number.Some? && Held(w.server.log, w.targets[id], raw.number))
  }

  ghost predicate FlightsOk(w: World) {
    forall f :: f in w.flights ==>
      && Known(w, w.flights[f].phase.item)
      && (w.flights[f].phase.Answered? ==>
            Truthful(w, w.flights[f].phase.item.id, w.flights[f].phase.item.raw, w.flights[f].phase.outcome))
  }

  ghost predicate RememberedOk(w: World) {
    forall o, id :: o in w.remembered && id in w.remembered[o] ==>
      var r := w.remembered[o][id];
      && (id, r.generation) in w.accepted
      && r.outcome.Applied? && r.version == r.outcome.version
      && Truthful(w, id, w.accepted[(id, r.generation)], r.outcome)
  }

  ghost predicate HasRejectedCopy(w: World, k: (ItemId, nat), reason: string)
    requires k in w.accepted
  {
    exists r :: r in w.store.rejected && r.item.id == k.0 && r.item.generation == k.1
                && r.item.raw == w.accepted[k] && r.reason == reason
  }

  ghost predicate SettledOk(w: World) {
    forall k :: k in w.settled ==>
      && k in w.accepted
      && Truthful(w, k.0, w.accepted[k], w.settled[k])
      && (w.settled[k].Rejected? ==> k in w.dismissed || HasRejectedCopy(w, k, w.settled[k].reason))
  }

  ghost predicate Inv(w: World) {
    PendingOk(w) && AcceptedOk(w) && FlightsOk(w) && RememberedOk(w) && SettledOk(w) && Versioned(w.server)
  }

  // ---- The server's log only grows, and what it answers is in it -----------------

  lemma {:induction false} ApplyAllGrowsLog(db: Records, writes: seq<BulkWrite>)
    ensures db.log <= ApplyAll(db, writes).0.log
  {
    if writes != [] { ApplyAllGrowsLog(db, writes[..|writes| - 1]); }
  }

  lemma LogGrows(db: Records, op: Op)
    ensures db.log <= Apply(db, op).log
  {
    if op.SaveAll? { ApplyAllGrowsLog(db.(tickets := db.tickets[op.ticketId := Batching]), op.writes); }
  }

  lemma HeldStays(log: seq<Accepted>, log': seq<Accepted>, t: Target, number: Option<real>)
    requires log <= log' && Held(log, t, number)
    ensures Held(log', t, number)
  {
    var k :| 0 <= k < |log| && log[k].componentId == t.componentId && log[k].which == t.which && Some(log[k].value) == number;
    assert log'[k] == log[k];
  }

  lemma {:induction false} HistoryIsInLog(log: seq<Accepted>, id: nat, which: Which)
    ensures forall i :: 0 <= i < |FieldHistory(log, id, which)| ==>
              FieldHistory(log, id, which)[i] in log
              && FieldHistory(log, id, which)[i].componentId == id && FieldHistory(log, id, which)[i].which == which
  {
    if log != [] { HistoryIsInLog(log[..|log| - 1], id, which); }
  }

  lemma ReadingIsTruthful(db: Records, t: Target, raw: Raw, expected: nat)
    requires Versioned(db)
    ensures var (db', answer) := RecordReading(db, t, raw, expected);
            && Versioned(db') && db.log <= db'.log
            && !ToReplayOutcome(answer, raw).Retryable?
            && (ToReplayOutcome(answer, raw).Applied? ==>
                  raw.number.Some? && ToReplayOutcome(answer, raw).version.Some? && Held(db'.log, t, raw.number))
  {
    if raw.number.Some? {
      ApplyKeepsVersioned(db, SaveField(t.ticketId, t.componentId, t.which, raw.number.value, expected));
    }
    var (db', answer) := RecordReading(db, t, raw, expected);
    match answer {
      case AnswerOk(v) => assert db'.log[|db.log|].value == raw.number.value;
      case AnswerStale(v, current) =>
        if SameFiniteReading(raw, current) {
          HistoryIsInLog(db'.log, t.componentId, t.which);
          assert OneWritePerVersion(db', t.componentId, t.which);
          var h := FieldHistory(db'.log, t.componentId, t.which);
          assert h[|h| - 1] in db'.log;
        }
      case AnswerRefused(_) =>
    }
  }

  // ---- One lemma per kind of step --------------------------------------------------

  /** The pending list after a step: `item` in place of whatever had its id, the rest as it was. */
  ghost predicate PutsItem(s: Store, s': Store, item: Item) {
    && DistinctIds(s'.pending)
    && forall id :: Lookup(s'.pending, id) == if id == item.id then Some(item) else Lookup(s.pending, id)
  }

  lemma EnqueueEffect(s: Store, newId: ItemId, target: Target, raw: Raw, expected: nat)
    requires DistinctIds(s.pending) && Lookup(s.pending, newId).None?
    ensures var (s', r) := EnqueueStep(s, newId, target, raw, expected, Disk(true, true));
            && r.EnqueueOk? && PutsItem(s, s', r.item) && s'.rejected == s.rejected
            && r.item.target == target && r.item.raw == raw
            && match Lookup(s.pending, r.item.id)
               case Some(was) => r.item == was.(raw := raw, generation := was.generation + 1)
               case None => r.item == Item(newId, target, raw, expected, 0, None, None)
  {
    var (s', r) := EnqueueStep(s, newId, target, raw, expected, Disk(true, true));
    var i := IndexOfTarget(s.pending, target);
    LookupFinds(s.pending, newId);
    if i < |s.pending| {
      LookupIsTheItem(s.pending, i);
      forall id { LookupUpdated(s.pending, i, r.item, id); }
    } else {
      forall id { LookupAppended(s.pending, r.item, id); }
    }
  }

  /** An accepted edit: `item` is in the list, under a generation not used before. */
  ghost predicate RecordsEdit(w: World, w': World, item: Item) {
    && PutsItem(w.store, w'.store, item)
    && (item.id, item.generation) !in w.accepted
    && (item.id in w.targets ==> w.targets[item.id] == item.target)
    && match Lookup(w.store.pending, item.id) {
         case Some(was) => item.generation == was.generation + 1
         case None => item.generation == 0 && item.id !in w.targets && item.id < w'.nextId
       }
    && w.nextId <= w'.nextId
    && w' == w.(store := w.store.(pending := w'.store.pending), nextId := w'.nextId,
                targets := w.targets[item.id := item.target],
                accepted := w.accepted[(item.id, item.generation) := item.raw])
  }

  lemma EditKeepsPending(w: World, w': World, item: Item)
    requires PendingOk(w) && RecordsEdit(w, w', item)
    ensures PendingOk(w')
  {
  }

  lemma EditKeepsAccepted(w: World, w': World, item: Item)
    requires PendingOk(w) && AcceptedOk(w) && RecordsEdit(w, w', item)
    ensures AcceptedOk(w')
  {
    forall k | k in w'.accepted ensures IsPending(w', k) || (k.0, k.1 + 1) in w'.accepted || k in w'.settled {
      if k in w.accepted { assert IsPending(w, k) || (k.0, k.1 + 1) in w.accepted || k in w.settled; }
    }
  }

  lemma EditKeepsFlights(w: World, w': World, item: Item)
    requires FlightsOk(w) && RememberedOk(w) && RecordsEdit(w, w', item)
    ensures FlightsOk(w') && RememberedOk(w')
  {
  }

  lemma EditKeepsSettled(w: World, w': World, item: Item)
    requires SettledOk(w) && RecordsEdit(w, w', item)
    ensures SettledOk(w')
  {
    forall k | k in w'.settled && w'.settled[k].Rejected? && k !in w'.dismissed
      ensures HasRejectedCopy(w', k, w'.settled[k].reason)
    {
      assert HasRejectedCopy(w, k, w.settled[k].reason);
      assert w'.accepted[k] == w.accepted[k];
    }
  }

  lemma EnqueueKeepsInv(w: World, target: Target, raw: Raw, expected: nat, disk: Disk)
    requires Inv(w)
    ensures Inv(StepEnqueue(w, target, raw, expected, disk))
  {
    if disk.readOk && disk.writeOk {
      var w' := StepEnqueue(w, target, raw, expected, disk);
      EnqueueEffect(w.store, w.nextId, target, raw, expected);
      var item := EnqueueStep(w.store, w.nextId, target, raw, expected, disk).1.item;
      EditKeepsPending(w, w', item);
      EditKeepsAccepted(w, w', item);
      EditKeepsFlights(w, w', item);
      EditKeepsSettled(w, w', item);
    }
  }

  /** A lease or version change of one pending item; its reading is untouched. */
  ghost predicate Retouches(s: Store, s': Store, item: Item) {
    && PutsItem(s, s', item) && s'.rejected == s.rejected
    && match Lookup(s.pending, item.id) {
         case None => false
         case Some(was) => was.id == item.id && was.target == item.target && was.raw == item.raw && was.generation == item.generation
       }
  }

  lemma ReplacedRetouches(s: Store, item: Item)
    requires DistinctIds(s.pending)
    requires match Lookup(s.pending, item.id)
             case None => false
             case Some(was) => was.target == item.target && was.raw == item.raw && was.generation == item.generation
    ensures Retouches(s, s.(pending := Replaced(s.pending, item.id, item)), item)
  {
    LookupFinds(s.pending, item.id);
    ReplacedAt(s.pending, item.id, item);
    forall id { LookupReplaced(s.pending, item.id, item, id); }
  }

  lemma RetouchKeepsInv(w: World, s': Store, item: Item)
    requires Inv(w) && Retouches(w.store, s', item)
    ensures Inv(w.(store := s')) && Known(w, item)
  {
    var w' := w.(store := s');
    assert Known(w, Lookup(w.store.pending, item.id).value);
    assert AcceptedOk(w') by {
      forall k | k in w'.accepted ensures IsPending(w', k) || (k.0, k.1 + 1) in w'.accepted || k in w'.settled {
        assert IsPending(w, k) || (k.0, k.1 + 1) in w.accepted || k in w.settled;
      }
    }
    assert SettledOk(w') by {
      forall k | k in w'.settled && w'.settled[k].Rejected? && k !in w'.dismissed
        ensures HasRejectedCopy(w', k, w'.settled[k].reason)
      {
        assert HasRejectedCopy(w, k, w.settled[k].reason);
      }
    }
  }

  lemma FlightKeepsInv(w: World, f: FlightId, flight: Flight)
    requires Inv(w) && Known(w, flight.phase.item)
    requires flight.phase.Answered? ==> Truthful(w, flight.phase.item.id, flight.phase.item.raw, flight.phase.outcome)
    ensures Inv(w.(flights := w.flights[f := flight]))
  {
    var w' := w.(flights := w.flights[f := flight]);
    SameHistoryKeepsSettled(w, w');
  }

  lemma SameHistoryKeepsSettled(w: World, w': World)
    requires SettledOk(w) && AcceptedOk(w) && w'.store == w.store && w.server.log <= w'.server.log
    requires w'.accepted == w.accepted && w'.targets == w.targets && w'.settled == w.settled && w'.dismissed == w.dismissed
    requires w'.nextId == w.nextId
    ensures SettledOk(w') && AcceptedOk(w')
  {
    forall k | k in w'.settled
      ensures Truthful(w', k.0, w'.accepted[k], w'.settled[k])
      ensures w'.settled[k].Rejected? ==> k in w'.dismissed || HasRejectedCopy(w', k, w'.settled[k].reason)
    {
      if w.settled[k].Applied? { HeldStays(w.server.log, w'.server.log, w.targets[k.0], w.accepted[k].number); }
      if w.settled[k].Rejected? && k !in w.dismissed { assert HasRejectedCopy(w, k, w.settled[k].reason); }
    }
    forall k | k in w'.accepted ensures IsPending(w', k) || (k.0, k.1 + 1) in w'.accepted || k in w'.settled {
      assert IsPending(w, k) || (k.0, k.1 + 1) in w.accepted || k in w.settled;
    }
  }

  lemma FlightFacts(w: World, f: FlightId)
    requires Inv(w) && f in w.flights
    ensures Known(w, w.flights[f].phase.item)
    ensures w.flights[f].phase.Answered? ==>
              Truthful(w, w.flights[f].phase.item.id, w.flights[f].phase.item.raw, w.flights[f].phase.outcome)
  {
  }

  lemma LandKeepsInv(w: World, f: FlightId)
    requires Inv(w)
    ensures Inv(Land(w, f))
  {
    SameHistoryKeepsSettled(w, Land(w, f));
  }

  lemma ServerKeepsInv(w: World, db: Records)
    requires Inv(w) && Versioned(db) && w.server.log <= db.log
    ensures Inv(w.(server := db))
  {
    var w' := w.(server := db);
    SameHistoryKeepsSettled(w, w');
    forall f | f in w'.flights && w'.flights[f].phase.Answered? && w'.flights[f].phase.outcome.Applied?
      ensures Held(db.log, w'.targets[w'.flights[f].phase.item.id], w'.flights[f].phase.item.raw.number)
    {
      HeldStays(w.server.log, db.log, w.targets[w.flights[f].phase.item.id], w.flights[f].phase.item.raw.number);
    }
    forall o, id | o in w'.remembered && id in w'.remembered[o]
      ensures Truthful(w', id, w'.accepted[(id, w'.remembered[o][id].generation)], w'.remembered[o][id].outcome)
    {
      HeldStays(w.server.log, db.log, w.targets[id], w.accepted[(id, w.remembered[o][id].generation)].number);
    }
  }

  lemma ClaimKeepsInv(w: World, f: FlightId, o: Owner, id: ItemId, now: nat, disk: Disk)
    requires Inv(w)
    ensures Inv(StepClaim(w, f, o, id, now, disk))
  {
    var (s, r) := ClaimStep(w.store, o, id, now, disk);
    if f !in w.flights && r.ClaimOk? {
      LookupFinds(w.store.pending, id);
      ReplacedRetouches(w.store, r.item);
      RetouchKeepsInv(w, s, r.item);
      FlightKeepsInv(w.(store := s), f, Flight(o, Claimed(r.item)));
    }
  }

  lemma AdoptKeepsInv(w: World, o: Owner, id: ItemId, version: nat, disk: Disk)
    requires Inv(w)
    ensures var (s, r) := AdoptStep(w.store, o, id, version, disk);
            Inv(w.(store := s)) && (r.Rebased? ==> Known(w.(store := s), r.item)) && (!r.Rebased? ==> s == w.store)
  {
    var (s, r) := AdoptStep(w.store, o, id, version, disk);
    LookupFinds(w.store.pending, id);
    if r.Rebased? {
      assert Known(w, Lookup(w.store.pending, id).value);
      if s != w.store {
        ReplacedRetouches(w.store, r.item);
        RetouchKeepsInv(w, s, r.item);
      }
    }
  }

  lemma DecideKeepsInv(w: World, f: FlightId, disk: Disk)
    requires Inv(w)
    ensures Inv(StepDecide(w, f, disk))
  {
    if At(w, f, (p: Phase) => p.Claimed?) {
      var o, snapshot := w.flights[f].owner, w.flights[f].phase.item;
      var m := RememberedBy(w, o);
      assert Known(w, snapshot);
      if snapshot.id in m && m[snapshot.id].generation == snapshot.generation {
        FlightKeepsInv(w, f, Flight(o, Answered(snapshot, m[snapshot.id].outcome)));
      } else if snapshot.id in m && m[snapshot.id].version.Some? {
        AdoptKeepsInv(w, o, snapshot.id, m[snapshot.id].version.value, disk);
        var (s, r) := AdoptStep(w.store, o, snapshot.id, m[snapshot.id].version.value, disk);
        match r
        case AdoptUnavailable => LandKeepsInv(w, f);
        case AdoptSkip => FlightKeepsInv(w, f, Flight(o, Ready(snapshot)));
        case Rebased(item) => FlightKeepsInv(w.(store := s), f, Flight(o, Ready(item)));
      } else {
        FlightKeepsInv(w, f, Flight(o, Ready(snapshot)));
      }
    }
  }

  lemma ReplyKeepsInv(w: World, f: FlightId, refused: Option<string>)
    requires Inv(w)
    ensures Inv(StepReply(w, f, refused))
  {
    if At(w, f, (p: Phase) => p.Ready?) {
      var it := w.flights[f].phase.item;
      if refused.None? {
        var (db, answer) := RecordReading(w.server, it.target, it.raw, it.expectedVersion);
        ReadingIsTruthful(w.server, it.target, it.raw, it.expectedVersion);
        ServerKeepsInv(w, db);
        FlightKeepsInv(w.(server := db), f, Flight(w.flights[f].owner, Answered(it, ToReplayOutcome(answer, it.raw))));
      } else {
        FlightKeepsInv(w, f, Flight(w.flights[f].owner, Answered(it, Rejected(refused.value))));
      }
    }
  }

  lemma FailKeepsInv(w: World, f: FlightId, reached: bool)
    requires Inv(w)
    ensures Inv(StepFail(w, f, reached))
  {
    if At(w, f, (p: Phase) => p.Ready?) {
      var it := w.flights[f].phase.item;
      ReadingIsTruthful(w.server, it.target, it.raw, it.expectedVersion);
      var db := if reached then RecordReading(w.server, it.target, it.raw, it.expectedVersion).0 else w.server;
      ServerKeepsInv(w, db);
      FlightKeepsInv(w.(server := db), f, Flight(w.flights[f].owner, Failed(it)));
    }
  }

  lemma ReleaseKeepsInv(w: World, f: FlightId, disk: Disk)
    requires Inv(w)
    ensures Inv(StepRelease(w, f, disk))
  {
    if At(w, f, (p: Phase) => p.Failed?) {
      var s := ReleaseStep(w.store, w.flights[f].owner, w.flights[f].phase.item, disk);
      var id := w.flights[f].phase.item.id;
      if s != w.store {
        LookupFinds(w.store.pending, id);
        var item := Lookup(w.store.pending, id).value.(leaseOwner := None, leaseExpiresAt := None);
        ReplacedRetouches(w.store, item);
        RetouchKeepsInv(w, s, item);
      }
      LandKeepsInv(w.(store := s), f);
    }
  }

  /** The settled pair leaves the list, recorded as applied or with its copy in the rejected list. */
  lemma RemovalKeepsInv(w: World, it: Item, outcome: Outcome)
    requires Inv(w) && Known(w, it) && Truthful(w, it.id, it.raw, outcome)
    requires IsPending(w, (it.id, it.generation))
    ensures Inv(w.(store := Store(Without(w.store.pending, it.id),
                                  if outcome.Rejected? then w.store.rejected + [RejectedItem(it, outcome.reason)] else w.store.rejected),
                   settled := w.settled[(it.id, it.generation) := outcome]))
  {
    var w' := w.(store := Store(Without(w.store.pending, it.id),
                                if outcome.Rejected? then w.store.rejected + [RejectedItem(it, outcome.reason)] else w.store.rejected),
                 settled := w.settled[(it.id, it.generation) := outcome]);
    WithoutKeepsDistinct(w.store.pending, it.id);
    forall id ensures Lookup(w'.store.pending, id) == if id == it.id then None else Lookup(w.store.pending, id) {
      LookupWithout(w.store.pending, it.id, id);
    }
    assert AcceptedOk(w') by {
      forall k | k in w'.accepted ensures IsPending(w', k) || (k.0, k.1 + 1) in w'.accepted || k in w'.settled {
        assert IsPending(w, k) || (k.0, k.1 + 1) in w.accepted || k in w.settled;
      }
    }
    assert SettledOk(w') by {
      forall k | k in w'.settled && w'.settled[k].Rejected? && k !in w'.dismissed
        ensures HasRejectedCopy(w', k, w'.settled[k].reason)
      {
        if k == (it.id, it.generation) {
          assert RejectedItem(it, outcome.reason) in w'.store.rejected;
        } else {
          assert HasRejectedCopy(w, k, w.settled[k].reason);
        }
      }
    }
  }

  lemma RememberKeepsInv(w: World, o: Owner, it: Item, outcome: Outcome, r: Settlement)
    requires Inv(w) && Known(w, it) && Truthful(w, it.id, it.raw, outcome)
    ensures Inv(w.(remembered := w.remembered[o := RememberStep(RememberedBy(w, o), it, outcome, r)]))
  {
    var w' := w.(remembered := w.remembered[o := RememberStep(RememberedBy(w, o), it, outcome, r)]);
    SameHistoryKeepsSettled(w, w');
    assert RememberedOk(w') by {
      forall p, id | p in w'.remembered && id in w'.remembered[p]
        ensures (id, w'.remembered[p][id].generation) in w'.accepted
        ensures w'.remembered[p][id].outcome.Applied? && w'.remembered[p][id].version == w'.remembered[p][id].outcome.version
        ensures Truthful(w', id, w'.accepted[(id, w'.remembered[p][id].generation)], w'.remembered[p][id].outcome)
      {
        if p in w.remembered && id in w.remembered[p] && w'.remembered[p][id] == w.remembered[p][id] {
          assert Truthful(w, id, w.accepted[(id, w.remembered[p][id].generation)], w.remembered[p][id].outcome);
        }
      }
    }
  }

  /** Settling changes the store, and for SETTLED the history. */
  lemma SettlementKeepsInv(w: World, o: Owner, it: Item, outcome: Outcome, disk: Disk)
    requires Inv(w) && Known(w, it) && Truthful(w, it.id, it.raw, outcome)
    ensures var (s, r) := SettleStep(w.store, o, it, outcome, disk);
            Inv(w.(store := s, settled := if r == Settled then w.settled[(it.id, it.generation) := outcome] else w.settled))
  {
    var (s, r) := SettleStep(w.store, o, it, outcome, disk);
    LookupFinds(w.store.pending, it.id);
    if r == Settled {
      RemovalKeepsInv(w, it, outcome);
    } else if r == Superseded {
      var current := Lookup(w.store.pending, it.id).value;
      var kept := current.(leaseOwner := None, leaseExpiresAt := None, expectedVersion :=
        if outcome.Applied? && outcome.version.Some? then outcome.version.value else current.expectedVersion);
      ReplacedRetouches(w.store, kept);
      RetouchKeepsInv(w, s, kept);
    }
  }

  lemma SettleKeepsInv(w: World, f: FlightId, disk: Disk)
    requires Inv(w)
    ensures Inv(StepSettle(w, f, disk))
  {
    hide Inv, Known, Truthful, SettleStep, RememberStep;
    if At(w, f, (p: Phase) => p.Answered?) {
      FlightFacts(w, f);
      var Flight(o, Answered(it, outcome)) := w.flights[f];
      var (s, r) := SettleStep(w.store, o, it, outcome, disk);
      SettlementKeepsInv(w, o, it, outcome, disk);
      var w1 := w.(store := s, settled := if r == Settled then w.settled[(it.id, it.generation) := outcome] else w.settled);
      FlightFacts(w1, f);
      RememberKeepsInv(w1, o, it, outcome, r);
      LandKeepsInv(w1.(remembered := w1.remembered[o := RememberStep(RememberedBy(w1, o), it, outcome, r)]), f);
    }
  }

  lemma DismissKeepsInv(w: World, id: ItemId, disk: Disk)
    requires Inv(w)
    ensures Inv(Step(w, Dismiss(id, disk)))
  {
    var w' := Step(w, Dismiss(id, disk));
    forall r { RejectedWithoutKeeps(w.store.rejected, id, r); }
    assert AcceptedOk(w') by {
      forall k | k in w'.accepted ensures IsPending(w', k) || (k.0, k.1 + 1) in w'.accepted || k in w'.settled {
        assert IsPending(w, k) || (k.0, k.1 + 1) in w.accepted || k in w.settled;
      }
    }
    assert SettledOk(w') by {
      forall k | k in w'.settled && w'.settled[k].Rejected? && k !in w'.dismissed
        ensures HasRejectedCopy(w', k, w'.settled[k].reason)
      {
        assert HasRejectedCopy(w, k, w.settled[k].reason);
        if k.0 == id { CopyIsListed(w, k, w.settled[k].reason); }
      }
    }
  }

  lemma CopyIsListed(w: World, k: (ItemId, nat), reason: string)
    requires k in w.accepted && HasRejectedCopy(w, k, reason)
    ensures k in CopiesOf(w.store.rejected, k.0)
  {
    var r :| r in w.store.rejected && r.item.id == k.0 && r.item.generation == k.1 && r.item.raw == w.accepted[k] && r.reason == reason;
    var i :| 0 <= i < |w.store.rejected| && w.store.rejected[i] == r;
  }

  lemma StepKeepsInv(w: World, e: Event)
    requires Inv(w)
    ensures Inv(Step(w, e))
  {
    match e
    case Enqueue(target, raw, expected, disk) => EnqueueKeepsInv(w, target, raw, expected, disk);
    case Dismiss(id, disk) => DismissKeepsInv(w, id, disk);
    case Claim(f, o, id, now, disk) => ClaimKeepsInv(w, f, o, id, now, disk);
    case Decide(f, disk) => DecideKeepsInv(w, f, disk);
    case Reply(f, refused) => ReplyKeepsInv(w, f, refused);
    case Fail(f, reached) => FailKeepsInv(w, f, reached);
    case Release(f, disk) => ReleaseKeepsInv(w, f, disk);
    case Settle(f, disk) => SettleKeepsInv(w, f, disk);
    case Abandon(f) => LandKeepsInv(w, f);
    case Forget(o) => SameHistoryKeepsSettled(w, Step(w, e));
    case Server(op) =>
      ApplyKeepsVersioned(w.server, op);
      LogGrows(w.server, op);
      ServerKeepsInv(w, Apply(w.server, op));
  }

  lemma {:induction false} RunKeepsInv(w: World, es: seq<Event>)
    requires Inv(w)
    ensures Inv(Run(w, es))
    decreases |es|
  {
    if es != [] {
      RunKeepsInv(w, es[..|es| - 1]);
      StepKeepsInv(Run(w, es[..|es| - 1]), es[|es| - 1]);
    }
  }

  // ---- Main results ------------------------------------------------------------

  /** The pair an edit's OK answer promised to keep. */
  ghost predicate AnsweredOk(w: World, e: Event, k: (ItemId, nat), raw: Raw) {
    && e.Enqueue?
    && var r := EnqueueStep(w.store, w.nextId, e.target, e.raw, e.expected, e.disk).1;
       r.EnqueueOk? && k == (r.item.id, r.item.generation) && raw == r.item.raw
  }

  lemma EnqueueIsNew(w: World, target: Target, raw: Raw, expected: nat)
    requires Inv(w)
    ensures var item := EnqueueStep(w.store, w.nextId, target, raw, expected, Disk(true, true)).1.item;
            (item.id, item.generation) !in w.accepted && (item.id in w.targets ==> w.targets[item.id] == target)
            && item.target == target && item.raw == raw
  {
    EnqueueEffect(w.store, w.nextId, target, raw, expected);
    var item := EnqueueStep(w.store, w.nextId, target, raw, expected, Disk(true, true)).1.item;
    if Lookup(w.store.pending, item.id).Some? { assert Known(w, Lookup(w.store.pending, item.id).value); }
  }

  lemma StepKeepsFacts(w: World, e: Event, k: (ItemId, nat))
    requires Inv(w) && k in w.accepted && k.0 in w.targets
    ensures k in Step(w, e).accepted && Step(w, e).accepted[k] == w.accepted[k]
    ensures k.0 in Step(w, e).targets && Step(w, e).targets[k.0] == w.targets[k.0]
  {
    hide Inv;
    if e.Enqueue? && e.disk.readOk && e.disk.writeOk { EnqueueIsNew(w, e.target, e.raw, e.expected); }
  }

  lemma {:induction false} FactsOnlyGrow(w: World, es: seq<Event>, k: (ItemId, nat))
    requires Inv(w) && k in w.accepted && k.0 in w.targets
    ensures k in Run(w, es).accepted && Run(w, es).accepted[k] == w.accepted[k]
    ensures k.0 in Run(w, es).targets && Run(w, es).targets[k.0] == w.targets[k.0]
    decreases |es|
  {
    if es != [] {
      FactsOnlyGrow(w, es[..|es| - 1], k);
      RunKeepsInv(w, es[..|es| - 1]);
      StepKeepsFacts(Run(w, es[..|es| - 1]), es[|es| - 1], k);
    }
  }

  lemma {:induction false} RunSplits(w: World, es: seq<Event>, fs: seq<Event>)
    ensures Run(w, es + fs) == Run(Run(w, es), fs)
    decreases |fs|
  {
    if fs == [] {
      assert es + fs == es;
    } else {
      assert (es + fs)[..|es + fs| - 1] == es + fs[..|fs| - 1];
      RunSplits(w, es, fs[..|fs| - 1]);
    }
  }

  /**
   No reading is lost. Take any run, and in it any edit that was answered OK. At
   the end its reading is still pending under that (id, generation), or a newer
   edit of the same item has been accepted, or exactly that pair was settled:
   as applied, and then the server field really held the number at some version,
   or as rejected, and then the rejected list has its copy until a person
   dismisses it.
   */
  lemma NoReadingIsLost(server: Records, before: seq<Event>, e: Event, after: seq<Event>, k: (ItemId, nat), raw: Raw)
    requires Versioned(server)
    requires AnsweredOk(Run(Empty(server), before), e, k, raw)
    ensures var w := Run(Empty(server), before + [e] + after);
            || (IsPending(w, k) && Lookup(w.store.pending, k.0).value.raw == raw
                && Lookup(w.store.pending, k.0).value.target == e.target)
            || (k.0, k.1 + 1) in w.accepted
            || (k in w.settled
                && (w.settled[k].Applied? ==> raw.number.Some? && Held(w.server.log, e.target, raw.number))
                && (w.settled[k].Rejected? ==> (k in w.dismissed
                      || exists r :: r in w.store.rejected && r.item.id == k.0 && r.item.generation == k.1
                                     && r.item.raw == raw && r.reason == w.settled[k].reason))
                && !w.settled[k].Retryable?)
  {
    hide Inv, EnqueueStep, Step;
    var w0 := Empty(server);
    var w1 := Run(w0, before);
    EmptyIsInv(server);
    RunKeepsInv(w0, before);
    AcceptedIsRecorded(w1, e, k, raw);
    var w2 := Step(w1, e);
    assert (before + [e])[..|before|] == before;
    assert Run(w0, before + [e]) == w2;
    RunSplits(w0, before + [e], after);
    StepKeepsInv(w1, e);
    RunKeepsInv(w2, after);
    FactsOnlyGrow(w2, after, k);
    FateOfAccepted(Run(w2, after), k);
  }

  lemma EmptyIsInv(server: Records)
    requires Versioned(server)
    ensures Inv(Empty(server))
  {
  }

  lemma AcceptedIsRecorded(w: World, e: Event, k: (ItemId, nat), raw: Raw)
    requires Inv(w) && AnsweredOk(w, e, k, raw)
    ensures k in Step(w, e).accepted && Step(w, e).accepted[k] == raw
    ensures k.0 in Step(w, e).targets && Step(w, e).targets[k.0] == e.target
  {
    hide Inv;
    EnqueueIsNew(w, e.target, e.raw, e.expected);
  }

  lemma PendingFacts(w: World, id: ItemId)
    requires PendingOk(w) && Lookup(w.store.pending, id).Some?
    ensures Lookup(w.store.pending, id).value.id == id && Known(w, Lookup(w.store.pending, id).value)
  {
  }

  lemma FateOfAccepted(w: World, k: (ItemId, nat))
    requires Inv(w) && k in w.accepted
    ensures k.0 in w.targets
    ensures || (IsPending(w, k) && Lookup(w.store.pending, k.0).value.raw == w.accepted[k]
                && Lookup(w.store.pending, k.0).value.target == w.targets[k.0])
            || (k.0, k.1 + 1) in w.accepted
            || (k in w.settled
                && Truthful(w, k.0, w.accepted[k], w.settled[k])
                && (w.settled[k].Rejected? ==> k in w.dismissed || HasRejectedCopy(w, k, w.settled[k].reason)))
  {
    hide PendingOk, FlightsOk, RememberedOk;
    assert IsPending(w, k) || (k.0, k.1 + 1) in w.accepted || k in w.settled;
    if IsPending(w, k) { PendingFacts(w, k.0); }
  }
}
