/** What a lease is for: while it lasts and is not given up, no other tab gets the item. */
module Leases {
  import opened Wrappers
  import opened ComponentEdits
  import opened OfflineQueue
  import opened ReplayProtocol

  /** Item x is pending under o's lease, which lasts until then at least. */
  predicate HeldUntil(s: Store, x: ItemId, o: Owner, until: nat) {
    && Lookup(s.pending, x).Some? && Lookup(s.pending, x).value.leaseOwner == Some(o)
    && Lookup(s.pending, x).value.leaseExpiresAt.Some? && until <= Lookup(s.pending, x).value.leaseExpiresAt.value
  }

  /** A pass of o's that holds x releases it or settles it. */
  predicate GivesUp(w: World, e: Event, x: ItemId, o: Owner) {
    && (e.Release? || e.Settle?) && e.flight in w.flights
    && w.flights[e.flight].owner == o && w.flights[e.flight].phase.item.id == x
  }

  predicate KeptRun(w: World, es: seq<Event>, x: ItemId, o: Owner)
    decreases |es|
  {
    es == [] || (KeptRun(w, es[..|es| - 1], x, o) && !GivesUp(Run(w, es[..|es| - 1]), es[|es| - 1], x, o))
  }

  lemma StoreKeepsLease(s: Store, s': Store, x: ItemId, o: Owner, until: nat)
    requires HeldUntil(s, x, o, until)
    requires match Lookup(s'.pending, x)
             case None => false
             case Some(it) => it.leaseOwner == Lookup(s.pending, x).value.leaseOwner && it.leaseExpiresAt == Lookup(s.pending, x).value.leaseExpiresAt
    ensures HeldUntil(s', x, o, until)
  {}

  lemma EnqueueKeepsLease(w: World, e: Event, x: ItemId, o: Owner, until: nat)
    requires Inv(w) && HeldUntil(w.store, x, o, until) && e.Enqueue?
    ensures HeldUntil(Step(w, e).store, x, o, until)
  {
    hide Inv, PendingOk;
    NewIdIsFree(w);
    if e.disk.readOk && e.disk.writeOk {
      EnqueueEffect(w.store, w.nextId, e.target, e.raw, e.expected);
    }
  }

  lemma NewIdIsFree(w: World)
    requires Inv(w)
    ensures DistinctIds(w.store.pending) && Lookup(w.store.pending, w.nextId).None?
  {
    assert w.nextId !in w.targets;
  }

  lemma ClaimKeepsLease(w: World, e: Event, x: ItemId, o: Owner, until: nat)
    requires HeldUntil(w.store, x, o, until) && e.Claim?
    requires if e.owner == o then until <= e.now + 60_000 else e.now < until
    ensures HeldUntil(Step(w, e).store, x, o, until)
  {
    ClaimsExactlyWhenFree(w.store, e.owner, e.id, e.now, e.disk);
    hide ClaimStep;
  }

  lemma PassKeepsLease(w: World, e: Event, x: ItemId, o: Owner, until: nat)
    requires HeldUntil(w.store, x, o, until) && (e.Decide? || e.Release? || e.Settle?) && !GivesUp(w, e, x, o)
    ensures HeldUntil(Step(w, e).store, x, o, until)
  {
    if e.flight in w.flights {
      var p, it := w.flights[e.flight].owner, w.flights[e.flight].phase.item;
      LookupFinds(w.store.pending, it.id);
      if Lookup(w.store.pending, it.id).Some? && it.id != x {
        forall with: Item | with.id == it.id { LookupReplaced(w.store.pending, it.id, with, x); }
        LookupWithout(w.store.pending, it.id, x);
      } else if e.Decide? {
        forall with: Item | with.id == it.id { LookupReplaced(w.store.pending, it.id, with, x); }
      }
    }
  }

  lemma StepKeepsLease(w: World, e: Event, x: ItemId, o: Owner, until: nat)
    requires Inv(w) && HeldUntil(w.store, x, o, until) && !GivesUp(w, e, x, o)
    requires e.Claim? ==> if e.owner == o then until <= e.now + 60_000 else e.now < until
    ensures HeldUntil(Step(w, e).store, x, o, until)
  {
    hide Inv, HeldUntil, GivesUp, StepEnqueue, StepClaim, StepDecide, StepRelease, StepSettle, RecordReading, Apply;
    match e
    case Enqueue(_, _, _, _) => EnqueueKeepsLease(w, e, x, o, until);
    case Claim(_, _, _, _, _) => ClaimKeepsLease(w, e, x, o, until);
    case Decide(_, _) => PassKeepsLease(w, e, x, o, until);
    case Release(_, _) => PassKeepsLease(w, e, x, o, until);
    case Settle(_, _) => PassKeepsLease(w, e, x, o, until);
    case Dismiss(_, _) => assert HeldUntil(Step(w, e).store, x, o, until) by { assert Step(w, e).store.pending == w.store.pending; SamePending(w.store, Step(w, e).store, x, o, until); }
    case _ => assert Step(w, e).store == w.store;
  }

  lemma SamePending(s: Store, s': Store, x: ItemId, o: Owner, until: nat)
    requires s'.pending == s.pending && HeldUntil(s, x, o, until)
    ensures HeldUntil(s', x, o, until)
  {}

  lemma {:induction false} RunKeepsLease(w: World, es: seq<Event>, x: ItemId, o: Owner, t: nat)
    requires Inv(w) && HeldUntil(w.store, x, o, t + 60_000) && KeptRun(w, es, x, o)
    requires forall k :: 0 <= k < |es| && es[k].Claim? ==> t <= es[k].now < t + 60_000
    ensures Inv(Run(w, es)) && HeldUntil(Run(w, es).store, x, o, t + 60_000)
    decreases |es|
  {
    hide Inv, HeldUntil, GivesUp, Step;
    if es != [] {
      var before, e := es[..|es| - 1], es[|es| - 1];
      assert forall k :: 0 <= k < |before| ==> before[k] == es[k];
      RunKeepsLease(w, before, x, o, t);
      StepKeepsInv(Run(w, before), e);
      StepKeepsLease(Run(w, before), e, x, o, t + 60_000);
    }
  }

  // ---- Main result -----------------------------------------------------------------------

  /**
   Let a tab claim an item at t, in any run. As long as none of its passes
   releases or settles the item, and clocks do not run backwards, every other tab
   that claims it within a minute of t comes away empty-handed, whatever edits,
   storage failures, dismissals and other passes happen in between.
   */
  lemma LeaseExcludesOthers(server: Records, before: seq<Event>, f: FlightId, o: Owner, x: ItemId, t: nat, disk: Disk,
                            es: seq<Event>, g: FlightId, p: Owner, now: nat, disk': Disk)
    requires Versioned(server) && p != o && t <= now < t + 60_000
    requires var w := Run(Empty(server), before); f !in w.flights && ClaimStep(w.store, o, x, t, disk).1.ClaimOk?
    requires forall k :: 0 <= k < |es| && es[k].Claim? ==> t <= es[k].now <= now
    requires KeptRun(Step(Run(Empty(server), before), Claim(f, o, x, t, disk)), es, x, o)
    ensures var w := Run(Step(Run(Empty(server), before), Claim(f, o, x, t, disk)), es);
            && Lookup(w.store.pending, x).Some? && Lookup(w.store.pending, x).value.leaseOwner == Some(o)
            && !ClaimStep(w.store, p, x, now, disk').1.ClaimOk?
            && Step(w, Claim(g, p, x, now, disk')) == w
  {
    hide Inv, ClaimStep, Run;
    EmptyIsInv(server);
    RunKeepsInv(Empty(server), before);
    var w0 := Run(Empty(server), before);
    var w1 := Step(w0, Claim(f, o, x, t, disk));
    StepKeepsInv(w0, Claim(f, o, x, t, disk));
    ClaimsExactlyWhenFree(w0.store, o, x, t, disk);
    RunKeepsLease(w1, es, x, o, t);
    ClaimsExactlyWhenFree(Run(w1, es).store, p, x, now, disk');
  }
}
