/**
 What a lost answer does: the server took the reading, the tab never heard. The
 next request for that item is stale whatever happens in between, and is taken
 for a conflict exactly when it carries another number.
 */
module LostAnswers {
  import opened Wrappers
  import opened ComponentEdits
  import opened OfflineQueue
  import opened ReplayProtocol
  import opened NoFalseConflict

  function History(db: Records, t: Target): seq<Accepted> { FieldHistory(db.log, t.componentId, t.which) }

  /** The request of this pass, if it has one ready, is about item x. */
  predicate IsSendOf(w: World, e: Event, x: ItemId) {
    (e.Reply? || e.Fail?) && Holds(w, e.flight, x)
  }

  /** A run in which item x is not sent and its field takes no other write. */
  ghost predicate UnsentRun(w: World, es: seq<Event>, x: ItemId, t: Target)
    decreases |es|
  {
    es == [] ||
    (var before := es[..|es| - 1];
     && UnsentRun(w, before, x, t) && !IsSendOf(Run(w, before), es[|es| - 1], x)
     && History(Step(Run(w, before), es[|es| - 1]).server, t) == History(Run(w, before).server, t))
  }

  /** A pass that holds x has yet to send it, and has only an old version to send it with. */
  ghost predicate PassBehind(w: World, f: FlightId, x: ItemId, t: Target, v: nat)
    requires f in w.flights
  {
    var phase := w.flights[f].phase;
    && !phase.Answered? && phase.item.target == t && phase.item.expectedVersion < v
    && (phase.Claimed? ==> forall o :: x in RememberedBy(w, o) ==> RememberedBy(w, o)[x].generation < phase.item.generation)
  }

  /** Nobody knows of version v: not the item, not a pass that holds it, not a tab's memory of it. */
  ghost predicate Behind(w: World, x: ItemId, t: Target, v: nat) {
    && Lookup(w.store.pending, x).Some?
    && Lookup(w.store.pending, x).value.id == x && Lookup(w.store.pending, x).value.target == t
    && Lookup(w.store.pending, x).value.expectedVersion < v
    && (forall o :: x in RememberedBy(w, o) ==>
          && RememberedBy(w, o)[x].generation < Lookup(w.store.pending, x).value.generation
          && (RememberedBy(w, o)[x].version.Some? ==> RememberedBy(w, o)[x].version.value < v))
    && (forall f :: Holds(w, f, x) ==> PassBehind(w, f, x, t, v))
  }

  /** Before the answer is lost a quiet state has one pass on x, and no memory of its present generation. */
  lemma LossLeavesBehind(w: World, f: FlightId)
    requires Inv(w) && QuietInv(w) && f in w.flights && w.flights[f].phase.Ready?
    requires var it := w.flights[f].phase.item; RecordReading(w.server, it.target, it.raw, it.expectedVersion).1.AnswerOk?
    ensures var it := w.flights[f].phase.item;
            var w1 := Step(w, Fail(f, true));
            && Behind(w1, it.id, it.target, it.expectedVersion + 1)
            && VersionAt(w1.server, it.target) == it.expectedVersion + 1
            && |History(w1.server, it.target)| == it.expectedVersion + 1
            && Some(History(w1.server, it.target)[it.expectedVersion].value) == it.raw.number
            && Versioned(w1.server)
  {
    hide Inv;
    PassItem(w, f);
    var Flight(o, Ready(it)) := w.flights[f];
    var w1, x := Step(w, Fail(f, true)), it.id;
    var current := Lookup(w.store.pending, x).value;
    AcceptedAddsOne(w.server, it);
    LastWrite(w.server, it);
    forall p | x in RememberedBy(w1, p)
      ensures RememberedBy(w1, p)[x].generation < current.generation
      ensures RememberedBy(w1, p)[x].version.Some? ==> RememberedBy(w1, p)[x].version.value < it.expectedVersion + 1
    {
      assert MemoryOk(w, p, current);
    }
    forall g | Holds(w1, g, x) ensures PassBehind(w1, g, x, it.target, it.expectedVersion + 1) {
      assert Holds(w, g, x) && Holds(w, f, x);
    }
  }

  lemma LastWrite(db: Records, it: Item)
    requires Versioned(db) && RecordReading(db, it.target, it.raw, it.expectedVersion).1.AnswerOk?
    ensures var h := History(RecordReading(db, it.target, it.raw, it.expectedVersion).0, it.target);
            |h| == it.expectedVersion + 1 && Some(h[it.expectedVersion].value) == it.raw.number
  {
    var claimed := db.(tickets := db.tickets[it.target.ticketId := Batching]);
    var log := RecordReading(db, it.target, it.raw, it.expectedVersion).0.log;
    VersionIsTheRows(db, it.target);
    assert log[..|log| - 1] == db.log;
  }

  // ---- Every step short of a send leaves everyone behind ------------------------------------

  /** Pending x may be edited or leased anew, but not moved on; memories of x may only go; passes on x are behind. */
  lemma BehindStays(w: World, w': World, x: ItemId, t: Target, v: nat)
    requires Behind(w, x, t, v)
    requires Lookup(w'.store.pending, x).Some?
    requires var was, now := Lookup(w.store.pending, x).value, Lookup(w'.store.pending, x).value;
             now.id == x && now.target == t && now.expectedVersion < v && was.generation <= now.generation
    requires forall o :: x in RememberedBy(w', o) ==> x in RememberedBy(w, o) && RememberedBy(w', o)[x] == RememberedBy(w, o)[x]
    requires forall f :: Holds(w', f, x) ==> (Holds(w, f, x) && w'.flights[f] == w.flights[f]) || PassBehind(w', f, x, t, v)
    ensures Behind(w', x, t, v)
  {
    forall f | Holds(w', f, x) ensures PassBehind(w', f, x, t, v) {
      if Holds(w, f, x) && w'.flights[f] == w.flights[f] { assert PassBehind(w, f, x, t, v); }
    }
  }

  lemma EnqueueKeepsBehind(w: World, x: ItemId, t: Target, v: nat, target: Target, raw: Raw, expected: nat, disk: Disk)
    requires Inv(w) && Behind(w, x, t, v)
    ensures Behind(StepEnqueue(w, target, raw, expected, disk), x, t, v)
  {
    if disk.readOk && disk.writeOk {
      var w' := StepEnqueue(w, target, raw, expected, disk);
      forall id: ItemId | Lookup(w.store.pending, id).Some? ensures id < w.nextId { assert Known(w, Lookup(w.store.pending, id).value); }
      EnqueueEffect(w.store, w.nextId, target, raw, expected);
      hide Inv, EnqueueStep;
      BehindStays(w, w', x, t, v);
    }
  }

  lemma ClaimKeepsBehind(w: World, x: ItemId, t: Target, v: nat, f: FlightId, o: Owner, id: ItemId, now: nat, disk: Disk)
    requires Behind(w, x, t, v)
    ensures Behind(StepClaim(w, f, o, id, now, disk), x, t, v)
  {
    var w', r := StepClaim(w, f, o, id, now, disk), ClaimStep(w.store, o, id, now, disk).1;
    if f !in w.flights && r.ClaimOk? {
      LookupFinds(w.store.pending, id);
      LookupReplaced(w.store.pending, id, r.item, x);
      BehindStays(w, w', x, t, v);
    }
  }

  /** Adopting a version changes that version alone, on that item alone. */
  lemma AdoptEffect(s: Store, o: Owner, id: ItemId, version: nat, disk: Disk)
    ensures var (s', r) := AdoptStep(s, o, id, version, disk);
            && (forall j :: j != id ==> Lookup(s'.pending, j) == Lookup(s.pending, j))
            && (r.Rebased? ==>
                  && Lookup(s.pending, id).Some? && r.item == Lookup(s.pending, id).value.(expectedVersion := version)
                  && Lookup(s'.pending, id) == Some(r.item))
            && (!r.Rebased? ==> s' == s)
  {
    LookupFinds(s.pending, id);
    if Lookup(s.pending, id).Some? {
      forall j { LookupReplaced(s.pending, id, Lookup(s.pending, id).value.(expectedVersion := version), j); }
    }
  }

  /** A pass decides: it goes on with its item as it is, or as it stands in the queue with the remembered version. */
  lemma DecideEffect(w: World, f: FlightId, disk: Disk)
    requires f in w.flights && w.flights[f].phase.Claimed?
    ensures var w', snapshot, o := StepDecide(w, f, disk), w.flights[f].phase.item, w.flights[f].owner;
            && w'.remembered == w.remembered
            && (forall h :: h != f ==> (h in w'.flights <==> h in w.flights) && (h in w.flights ==> w'.flights[h] == w.flights[h]))
            && (forall j :: j != snapshot.id ==> Lookup(w'.store.pending, j) == Lookup(w.store.pending, j))
            && (f in w'.flights ==>
                  || (w'.flights[f].phase == Ready(snapshot) && w'.store == w.store)
                  || (w'.flights[f].phase.Answered? && w'.flights[f].phase.item == snapshot && w'.store == w.store
                      && snapshot.id in RememberedBy(w, o) && RememberedBy(w, o)[snapshot.id].generation == snapshot.generation)
                  || (snapshot.id in RememberedBy(w, o) && RememberedBy(w, o)[snapshot.id].version.Some?
                      && Lookup(w.store.pending, snapshot.id).Some?
                      && var it := Lookup(w.store.pending, snapshot.id).value.(expectedVersion := RememberedBy(w, o)[snapshot.id].version.value);
                      w'.flights[f].phase == Ready(it) && Lookup(w'.store.pending, snapshot.id) == Some(it)))
            && (f !in w'.flights ==> w'.store == w.store)
  {
    var Flight(o, Claimed(snapshot)) := w.flights[f];
    var m := RememberedBy(w, o);
    if snapshot.id in m && m[snapshot.id].version.Some? { AdoptEffect(w.store, o, snapshot.id, m[snapshot.id].version.value, disk); }
    hide AdoptStep, Lookup;
  }

  lemma DecideKeepsBehind(w: World, x: ItemId, t: Target, v: nat, f: FlightId, disk: Disk)
    requires Behind(w, x, t, v)
    ensures Behind(StepDecide(w, f, disk), x, t, v)
  {
    if At(w, f, (p: Phase) => p.Claimed?) {
      var w', snapshot := StepDecide(w, f, disk), w.flights[f].phase.item;
      assert Holds(w, f, x) ==> PassBehind(w, f, x, t, v);
      DecideEffect(w, f, disk);
      LookupFinds(w.store.pending, snapshot.id);
      hide StepDecide, Lookup;
      BehindStays(w, w', x, t, v);
    }
  }

  lemma ReleaseKeepsBehind(w: World, x: ItemId, t: Target, v: nat, f: FlightId, disk: Disk)
    requires Behind(w, x, t, v)
    ensures Behind(StepRelease(w, f, disk), x, t, v)
  {
    if At(w, f, (p: Phase) => p.Failed?) {
      var it := w.flights[f].phase.item;
      LookupFinds(w.store.pending, it.id);
      if Lookup(w.store.pending, it.id).Some? {
        LookupReplaced(w.store.pending, it.id, Lookup(w.store.pending, it.id).value.(leaseOwner := None, leaseExpiresAt := None), x);
      }
      BehindStays(w, StepRelease(w, f, disk), x, t, v);
    }
  }

  /** No pass on x has an answer, so any settlement is of another item. */
  lemma SettleKeepsBehind(w: World, x: ItemId, t: Target, v: nat, f: FlightId, disk: Disk)
    requires Behind(w, x, t, v)
    ensures Behind(StepSettle(w, f, disk), x, t, v)
  {
    if At(w, f, (p: Phase) => p.Answered?) {
      var Flight(o, Answered(it, outcome)) := w.flights[f];
      assert Holds(w, f, x) ==> PassBehind(w, f, x, t, v);
      SettleEffect(w.store, o, it, outcome, disk);
      hide SettleStep;
      BehindStays(w, StepSettle(w, f, disk), x, t, v);
    }
  }

  lemma StepKeepsBehind(w: World, e: Event, x: ItemId, t: Target, v: nat)
    requires Inv(w) && Behind(w, x, t, v) && !IsSendOf(w, e, x)
    ensures Behind(Step(w, e), x, t, v)
  {
    hide Inv, StepEnqueue, StepClaim, StepDecide, StepRelease, StepSettle;
    match e
    case Enqueue(target, raw, expected, disk) => EnqueueKeepsBehind(w, x, t, v, target, raw, expected, disk);
    case Claim(f, o, id, now, disk) => ClaimKeepsBehind(w, x, t, v, f, o, id, now, disk);
    case Decide(f, disk) => DecideKeepsBehind(w, x, t, v, f, disk);
    case Release(f, disk) => ReleaseKeepsBehind(w, x, t, v, f, disk);
    case Settle(f, disk) => SettleKeepsBehind(w, x, t, v, f, disk);
    case _ => ElsewhereKeepsBehind(w, e, x, t, v);
  }

  /** The server, other items' requests, and tabs that close do not touch x. */
  lemma ElsewhereKeepsBehind(w: World, e: Event, x: ItemId, t: Target, v: nat)
    requires Behind(w, x, t, v) && !IsSendOf(w, e, x)
    requires e.Dismiss? || e.Reply? || e.Fail? || e.Abandon? || e.Forget? || e.Server?
    ensures Behind(Step(w, e), x, t, v)
  {
    if e.Reply? || e.Fail? { OtherSendKeepsBehind(w, e, x, t, v); } else { QuietKeepsBehind(w, e, x, t, v); }
  }

  lemma OtherSendKeepsBehind(w: World, e: Event, x: ItemId, t: Target, v: nat)
    requires Behind(w, x, t, v) && !IsSendOf(w, e, x) && (e.Reply? || e.Fail?)
    ensures Behind(Step(w, e), x, t, v)
  {
    hide RecordReading, Apply, ToReplayOutcome, PassBehind;
    BehindStays(w, Step(w, e), x, t, v);
  }

  lemma QuietKeepsBehind(w: World, e: Event, x: ItemId, t: Target, v: nat)
    requires Behind(w, x, t, v) && (e.Dismiss? || e.Abandon? || e.Forget? || e.Server?)
    ensures Behind(Step(w, e), x, t, v)
  {
    hide RecordReading, Apply, ToReplayOutcome, PassBehind;
    BehindStays(w, Step(w, e), x, t, v);
  }

  lemma {:induction false} RunKeepsBehind(w: World, es: seq<Event>, x: ItemId, t: Target, v: nat)
    requires Inv(w) && Behind(w, x, t, v) && UnsentRun(w, es, x, t)
    ensures Inv(Run(w, es)) && Behind(Run(w, es), x, t, v)
    ensures History(Run(w, es).server, t) == History(w.server, t)
    decreases |es|
  {
    hide Inv, Behind, Step;
    if es != [] {
      var before := es[..|es| - 1];
      RunKeepsBehind(w, before, x, t, v);
      StepKeepsBehind(Run(w, before), es[|es| - 1], x, t, v);
      StepKeepsInv(Run(w, before), es[|es| - 1]);
    }
  }

  // ---- Main result -----------------------------------------------------------------------

  /**
   Let a request of a quiet run be accepted and its answer lost. Whatever tabs,
   edits, leases and failures follow, as long as nobody else writes the field, the
   next request for that item is refused as stale, if the form and the ticket
   let it through at all. The refusal is settled as a conflict if and only if
   the number sent then is not the one whose answer was lost (or is no reading at all).
   */
  lemma LostAnswerExactly(server: Records, es: seq<Event>, f: FlightId, more: seq<Event>, g: FlightId)
    requires Versioned(server) && QuietRun(Empty(server), es)
    requires f in Run(Empty(server), es).flights && Run(Empty(server), es).flights[f].phase.Ready?
    requires var w := Run(Empty(server), es);
             var it := w.flights[f].phase.item;
             && RecordReading(w.server, it.target, it.raw, it.expectedVersion).1.AnswerOk?
             && UnsentRun(Step(w, Fail(f, true)), more, it.id, it.target)
    requires var w := Run(Empty(server), es);
             var w2 := Run(Step(w, Fail(f, true)), more);
             g in w2.flights && w2.flights[g].phase.Ready? && w2.flights[g].phase.item.id == w.flights[f].phase.item.id
             && Acceptable(w2.server, w2.flights[g].phase.item)
    ensures var w := Run(Empty(server), es);
            var lost := w.flights[f].phase.item.raw;
            var w2 := Run(Step(w, Fail(f, true)), more);
            var sent := w2.flights[g].phase.item.raw;
            var answered := Step(w2, Reply(g, None)).flights[g].phase;
            && StaleAt(w2, g) && answered.Answered?
            && (answered.outcome.Rejected? <==> sent.number != lost.number || Blank(sent.text))
            && (answered.outcome.Applied? <==> sent.number == lost.number && !Blank(sent.text))
  {
    hide Inv, Run;
    QuietRunKeepsQuiet(server, es);
    var w := Run(Empty(server), es);
    var it, w1 := w.flights[f].phase.item, Step(w, Fail(f, true));
    LossLeavesBehind(w, f);
    StepKeepsInv(w, Fail(f, true));
    RunKeepsBehind(w1, more, it.id, it.target, it.expectedVersion + 1);
    StaleWhenBehind(Run(w1, more), g, it);
  }

  lemma StaleWhenBehind(w: World, g: FlightId, it: Item)
    requires Inv(w) && Behind(w, it.id, it.target, it.expectedVersion + 1)
    requires |History(w.server, it.target)| == it.expectedVersion + 1 && Some(History(w.server, it.target)[it.expectedVersion].value) == it.raw.number
    requires g in w.flights && w.flights[g].phase.Ready? && w.flights[g].phase.item.id == it.id && Acceptable(w.server, w.flights[g].phase.item)
    ensures StaleAt(w, g) && Step(w, Reply(g, None)).flights[g].phase.Answered?
    ensures var sent := w.flights[g].phase.item.raw;
            var outcome := Step(w, Reply(g, None)).flights[g].phase.outcome;
            && (outcome.Rejected? <==> sent.number != it.raw.number || Blank(sent.text))
            && (outcome.Applied? <==> sent.number == it.raw.number && !Blank(sent.text))
  {
    assert Holds(w, g, it.id) && PassBehind(w, g, it.id, it.target, it.expectedVersion + 1);
    VersionIsTheRows(w.server, it.target);
    assert OneWritePerVersion(w.server, it.target.componentId, it.target.which);
  }
}
