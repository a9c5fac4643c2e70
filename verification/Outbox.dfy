/**
 The outbox of automatic requisitions: any number of workers draining intents
 under leases, any of them crashing between two commits. One step is one
 committed statement or transaction.
 */
module Outbox {
  import opened Wrappers
  import opened Numbers

  type IntentId = nat
  type RequisitionId = nat
  /** A fresh owner id for every call of the processor. */
  type Owner = nat

  const LEASE: nat := 5 * 60 * 1000
  const HOUR: nat := 60 * 60 * 1000
  const MAX_DELAY: nat := 48 * HOUR
  const MAX_ATTEMPTS: nat := 14

  /** The levels a completion saw, which is all the processor ever judges by. */
  datatype Snapshot = Snapshot(level: real, capacity: real, thresholdPct: real)

  datatype Lease = Lease(owner: Owner, expires: nat)

  datatype Intent = Intent(material: nat, site: nat, snapshot: Snapshot, requisition: Option<RequisitionId>,
                           lease: Option<Lease>, attempts: nat, nextAttemptAt: nat, parked: bool)

  /** `quantity` is what is asked for, in the unit of the store. */
  datatype Requisition = Requisition(material: nat, site: nat, quantity: real, open: bool, announced: bool)

  /** What a worker knows, by the step it is about to take. */
  datatype Worker =
    | Claimed(i: IntentId)
    | Deciding(i: IntentId, copy: Intent)
    | Creating(i: IntentId, copy: Intent)
    | Attaching(i: IntentId, copy: Intent, r: RequisitionId)
    | Settling(i: IntentId, copy: Intent, r: RequisitionId)
    | Finishing(i: IntentId, copy: Intent)
    | Failing(i: IntentId, copy: Intent)
    | Pushing(r: RequisitionId)

  datatype Announcement = Announcement(r: RequisitionId, worker: Owner)

  /** `retired`, `failures`, `notices` and `pushes` record what happened; no step reads them. */
  datatype World = World(
    now: nat,
    intents: map<IntentId, Intent>,
    requisitions: map<RequisitionId, Requisition>,
    workers: map<Owner, Worker>,
    owners: set<Owner>,
    retired: map<IntentId, Intent>,
    failures: map<IntentId, nat>,
    notices: seq<Announcement>,
    pushes: seq<Announcement>)

  datatype Event =
    | Tick(ms: nat)
    | Stage(i: IntentId, material: nat, site: nat, snapshot: Snapshot)
    | Order(r: RequisitionId, material: nat, site: nat, quantity: real)
    | CloseRequisition(r: RequisitionId)
    | Sweep(i: IntentId)
    | Claim(w: Owner, i: IntentId)
    | Read(w: Owner)
    | Decide(w: Owner, found: Option<RequisitionId>)
    | Create(w: Owner, r: RequisitionId)
    | Attach(w: Owner)
    | Settle(w: Owner)
    | Finish(w: Owner)
    | Fail(w: Owner)
    | RecordFailure(w: Owner)
    | Push(w: Owner)
    | Crash(w: Owner)

  function Delay(attempts: nat): nat {
    if MAX_DELAY <= HOUR * Pow2(attempts) then MAX_DELAY else HOUR * Pow2(attempts)
  }

  /** Whether the captured levels call for a requisition at all. */
  predicate CallsFor(s: Snapshot) {
    s.capacity > 0.0 && !(s.level / s.capacity * 100.0 > s.thresholdPct) && s.capacity - s.level > 0.0
  }

  /** The open requisition of a material at a site, if any. */
  predicate IsOpen(requisitions: map<RequisitionId, Requisition>, r: RequisitionId, material: nat, site: nat) {
    r in requisitions && requisitions[r].open && requisitions[r].material == material && requisitions[r].site == site
  }

  predicate HasOpen(requisitions: map<RequisitionId, Requisition>, material: nat, site: nat) {
    exists r :: r in requisitions && IsOpen(requisitions, r, material, site)
  }

  predicate HeldBy(w: World, i: IntentId, o: Owner) {
    i in w.intents && w.intents[i].lease.Some? && w.intents[i].lease.value.owner == o
  }

  function Gone(w: World, o: Owner): World { w.(workers := w.workers - {o}) }

  function Now(w: World, o: Owner, next: Worker): World { w.(workers := w.workers[o := next]) }

  function SetIntent(w: World, i: IntentId, intent: Intent): World { w.(intents := w.intents[i := intent]) }

  function Retire(w: World, i: IntentId): World
    requires i in w.intents
  {
    w.(intents := w.intents - {i}, retired := w.retired[i := w.intents[i]])
  }

  /** The conditional update every entry point starts with. */
  function ClaimStep(w: World, o: Owner, i: IntentId): (w': World)
    ensures w'.workers - {o} == w.workers - {o} && w'.now == w.now
  {
    if o in w.owners || i !in w.intents then w
    else
      var intent := w.intents[i];
      if intent.lease.None? || intent.lease.value.expires < w.now then
        Now(SetIntent(w, i, intent.(lease := Some(Lease(o, w.now + LEASE)))), o, Claimed(i)).(owners := w.owners + {o})
      else w
  }

  function DecideStep(w: World, o: Owner, found: Option<RequisitionId>): (w': World)
    requires o in w.workers && w.workers[o].Deciding?
    ensures w'.workers - {o} == w.workers - {o} && w'.now == w.now
  {
    var (i, copy) := (w.workers[o].i, w.workers[o].copy);
    if copy.requisition.Some? then Now(w, o, Settling(i, copy, copy.requisition.value))
    else if !CallsFor(copy.snapshot) then Now(w, o, Finishing(i, copy))
    else
      match found
      case Some(r) => if IsOpen(w.requisitions, r, copy.material, copy.site) then Now(w, o, Attaching(i, copy, r)) else w
      case None => if HasOpen(w.requisitions, copy.material, copy.site) then w else Now(w, o, Creating(i, copy))
  }

  /** An insert that the unique index on open requisitions may refuse; the winner is then read back. */
  function CreateStep(w: World, o: Owner, r: RequisitionId): (w': World)
    requires o in w.workers && w.workers[o].Creating?
    ensures w'.workers - {o} == w.workers - {o} && w'.now == w.now
  {
    var (i, copy) := (w.workers[o].i, w.workers[o].copy);
    if HasOpen(w.requisitions, copy.material, copy.site) then
      if IsOpen(w.requisitions, r, copy.material, copy.site) then Now(w, o, Attaching(i, copy, r)) else w
    else if r in w.requisitions then w
    else
      Now(w.(requisitions := w.requisitions[r := Requisition(copy.material, copy.site, copy.snapshot.capacity - copy.snapshot.level, true, false)]), o, Attaching(i, copy, r))
  }

  /** Progress is written under the lease: a lost one leaves the row alone. */
  function AttachStep(w: World, o: Owner): (w': World)
    requires o in w.workers && w.workers[o].Attaching?
    ensures w'.workers - {o} == w.workers - {o} && w'.now == w.now
  {
    var (i, copy, r) := (w.workers[o].i, w.workers[o].copy, w.workers[o].r);
    if !HeldBy(w, i, o) then Gone(w, o)
    else Now(SetIntent(w, i, w.intents[i].(requisition := Some(r))), o, Settling(i, copy, r))
  }

  /** One transaction: hold the lease, claim delivery and write the notices if it was not claimed, retire the intent. */
  function SettleStep(w: World, o: Owner): (w': World)
    requires o in w.workers && w.workers[o].Settling?
    ensures w'.workers - {o} == w.workers - {o} && w'.now == w.now
  {
    var (i, copy, r) := (w.workers[o].i, w.workers[o].copy, w.workers[o].r);
    if !HeldBy(w, i, o) || w.intents[i].lease.value.expires <= w.now then Gone(w, o)
    else if r in w.requisitions && !w.requisitions[r].announced then
      var w1 := w.(requisitions := w.requisitions[r := w.requisitions[r].(announced := true)], notices := w.notices + [Announcement(r, o)]);
      Now(Retire(w1, i), o, Pushing(r))
    else Gone(Retire(w, i), o)
  }

  function FinishStep(w: World, o: Owner): (w': World)
    requires o in w.workers && w.workers[o].Finishing?
    ensures w'.workers - {o} == w.workers - {o} && w'.now == w.now
  {
    if HeldBy(w, w.workers[o].i, o) then Gone(Retire(w, w.workers[o].i), o) else Gone(w, o)
  }

  function FailStep(w: World, o: Owner): (w': World)
    requires o in w.workers
    ensures w'.workers - {o} == w.workers - {o} && w'.now == w.now
  {
    match w.workers[o]
    case Claimed(_) => Gone(w, o)
    case Pushing(_) => Gone(w, o)
    case Finishing(_, _) => Gone(w, o)
    case Failing(_, _) => Gone(w, o)
    case worker => Now(w, o, Failing(worker.i, worker.copy))
  }

  function FailuresOf(w: World, i: IntentId): nat { if i in w.failures then w.failures[i] else 0 }

  function RecordFailureStep(w: World, o: Owner): (w': World)
    requires o in w.workers && w.workers[o].Failing?
    ensures w'.workers - {o} == w.workers - {o} && w'.now == w.now
  {
    var (i, copy) := (w.workers[o].i, w.workers[o].copy);
    if !HeldBy(w, i, o) then Gone(w, o)
    else
      var attempts := copy.attempts + 1;
      var intent := w.intents[i].(attempts := attempts, nextAttemptAt := w.now + Delay(attempts), lease := None,
                                  parked := w.intents[i].parked || attempts >= MAX_ATTEMPTS);
      Gone(SetIntent(w, i, intent), o).(failures := w.failures[i := FailuresOf(w, i) + 1])
  }

  /** A step out of turn, or on a row that is not there, changes nothing. */
  function Step(w: World, e: Event): World {
    match e
    case Tick(ms) => w.(now := w.now + ms)
    case Stage(i, material, site, snapshot) =>
      if i in w.intents || i in w.retired then w
      else SetIntent(w, i, Intent(material, site, snapshot, None, None, 0, w.now, false)).(failures := w.failures[i := 0])
    case Order(r, material, site, quantity) =>
      if r in w.requisitions || HasOpen(w.requisitions, material, site) then w
      else w.(requisitions := w.requisitions[r := Requisition(material, site, quantity, true, false)])
    case CloseRequisition(r) =>
      if r in w.requisitions then w.(requisitions := w.requisitions[r := w.requisitions[r].(open := false)]) else w
    case Sweep(i) =>
      if i in w.intents && w.intents[i].nextAttemptAt <= w.now && !w.intents[i].parked then
        SetIntent(w, i, w.intents[i].(nextAttemptAt := w.now + Delay(0)))
      else w
    case Claim(o, i) => ClaimStep(w, o, i)
    case Read(o) =>
      if o in w.workers && w.workers[o].Claimed? then
        if w.workers[o].i in w.intents then Now(w, o, Deciding(w.workers[o].i, w.intents[w.workers[o].i])) else Gone(w, o)
      else w
    case Decide(o, found) => if o in w.workers && w.workers[o].Deciding? then DecideStep(w, o, found) else w
    case Create(o, r) => if o in w.workers && w.workers[o].Creating? then CreateStep(w, o, r) else w
    case Attach(o) => if o in w.workers && w.workers[o].Attaching? then AttachStep(w, o) else w
    case Settle(o) => if o in w.workers && w.workers[o].Settling? then SettleStep(w, o) else w
    case Finish(o) => if o in w.workers && w.workers[o].Finishing? then FinishStep(w, o) else w
    case Fail(o) => if o in w.workers then FailStep(w, o) else w
    case RecordFailure(o) => if o in w.workers && w.workers[o].Failing? then RecordFailureStep(w, o) else w
    case Push(o) =>
      if o in w.workers && w.workers[o].Pushing? then
        Gone(w, o).(pushes := w.pushes + [Announcement(w.workers[o].r, o)])
      else w
    case Crash(o) => Gone(w, o)
  }

  function Run(w: World, es: seq<Event>): World
    decreases |es|
  {
    if es == [] then w else Run(Step(w, es[0]), es[1..])
  }

  const Start: World := World(0, map[], map[], map[], {}, map[], map[], [], [])

  // ---- The invariant -------------------------------------------------------------------

  /** r is a requisition for what this intent asks. */
  ghost predicate Answers(w: World, r: RequisitionId, intent: Intent) {
    r in w.requisitions && w.requisitions[r].material == intent.material && w.requisitions[r].site == intent.site
  }

  ghost predicate IntentOK(w: World, i: IntentId) {
    i in w.intents ==>
      && i !in w.retired
      && (w.intents[i].requisition.Some? ==> Answers(w, w.intents[i].requisition.value, w.intents[i]) && CallsFor(w.intents[i].snapshot))
      && (w.intents[i].lease.Some? ==> w.intents[i].lease.value.owner in w.owners)
      && FailuresOf(w, i) == w.intents[i].attempts
      && (w.intents[i].parked <==> MAX_ATTEMPTS <= w.intents[i].attempts)
  }

  ghost predicate IntentsOK(w: World) {
    forall i :: IntentOK(w, i)
  }

  predicate SameAsk(a: Intent, b: Intent) {
    a.material == b.material && a.site == b.site && a.snapshot == b.snapshot
  }

  /** A worker's copy is of its intent, and up to date on attempts while it holds the lease. */
  ghost predicate CopyOK(w: World, o: Owner, i: IntentId, copy: Intent) {
    && (i in w.intents || i in w.retired)
    && (i in w.intents ==> SameAsk(copy, w.intents[i]))
    && (i in w.retired ==> SameAsk(copy, w.retired[i]))
    && (HeldBy(w, i, o) ==> w.intents[i].attempts == copy.attempts)
    && (copy.requisition.Some? ==> Answers(w, copy.requisition.value, copy) && CallsFor(copy.snapshot))
  }

  ghost predicate WorkerOK(w: World, o: Owner) {
    o in w.workers ==>
      && o in w.owners
      && match w.workers[o]
         case Claimed(i) => i in w.intents || i in w.retired
         case Pushing(r) => Announcement(r, o) in w.notices && Announcement(r, o) !in w.pushes
         case Attaching(i, copy, r) => CopyOK(w, o, i, copy) && Answers(w, r, copy) && CallsFor(copy.snapshot)
         case Settling(i, copy, r) =>
           && CopyOK(w, o, i, copy) && Answers(w, r, copy) && CallsFor(copy.snapshot)
           && (HeldBy(w, i, o) ==> w.intents[i].requisition == Some(r))
         case Finishing(i, copy) => CopyOK(w, o, i, copy) && !CallsFor(copy.snapshot)
         case Creating(i, copy) => CopyOK(w, o, i, copy) && CallsFor(copy.snapshot)
         case Deciding(i, copy) => CopyOK(w, o, i, copy) && (HeldBy(w, i, o) ==> w.intents[i].requisition == copy.requisition)
         case Failing(i, copy) => CopyOK(w, o, i, copy)
  }

  /** Nothing leaves the queue while an announcement is still owed. */
  ghost predicate RetiredOK(w: World) {
    forall i :: i in w.retired ==>
      && (w.retired[i].requisition.Some? ==> CallsFor(w.retired[i].snapshot))
      && (CallsFor(w.retired[i].snapshot) ==>
            && w.retired[i].requisition.Some? && Answers(w, w.retired[i].requisition.value, w.retired[i])
            && w.requisitions[w.retired[i].requisition.value].announced)
  }

  ghost predicate NoticesOK(w: World) {
    && (forall n :: n in w.notices ==> n.worker in w.owners && n.r in w.requisitions && w.requisitions[n.r].announced)
    && (forall r :: r in w.requisitions && w.requisitions[r].announced ==> exists n :: n in w.notices && n.r == r)
    && (forall k, l :: 0 <= k < l < |w.notices| ==> w.notices[k].r != w.notices[l].r)
    && (forall p :: p in w.pushes ==> p in w.notices)
    && (forall k, l :: 0 <= k < l < |w.pushes| ==> w.pushes[k].r != w.pushes[l].r)
  }

  ghost predicate OneOpen(w: World) {
    forall r, r' :: r in w.requisitions && r' in w.requisitions && w.requisitions[r].open && w.requisitions[r'].open
                    && w.requisitions[r].material == w.requisitions[r'].material && w.requisitions[r].site == w.requisitions[r'].site
                    ==> r == r'
  }

  ghost predicate Inv(w: World) {
    IntentsOK(w) && (forall o :: WorkerOK(w, o)) && RetiredOK(w) && NoticesOK(w) && OneOpen(w)
  }

  // ---- Every step keeps the invariant ------------------------------------------------------

  /** Nothing a worker other than o relies on has changed between w and w'. */
  ghost predicate Undisturbed(w: World, w': World, o: Owner) {
    && w.owners <= w'.owners
    && (forall p :: p != o ==> (p in w.workers <==> p in w'.workers) && (p in w.workers ==> w'.workers[p] == w.workers[p]))
    && (forall i :: i in w.intents && i !in w.retired ==>
          || (i in w'.intents && i !in w'.retired && SameAsk(w'.intents[i], w.intents[i]))
          || (i in w'.retired && i !in w'.intents && SameAsk(w'.retired[i], w.intents[i])))
    && (forall i :: i in w.retired ==> i in w'.retired && w'.retired[i] == w.retired[i] && i !in w'.intents)
    && (forall i, p :: p != o && p in w.owners && HeldBy(w', i, p) ==>
          HeldBy(w, i, p) && w'.intents[i].attempts == w.intents[i].attempts && w'.intents[i].requisition == w.intents[i].requisition)
    && (forall r :: r in w.requisitions ==>
          r in w'.requisitions && w'.requisitions[r].material == w.requisitions[r].material && w'.requisitions[r].site == w.requisitions[r].site
          && (w.requisitions[r].announced ==> w'.requisitions[r].announced))
    && w.notices <= w'.notices
    && (forall p :: p in w'.pushes ==> p in w.pushes || p.worker == o)
  }

  lemma CopyStays(w: World, w': World, o: Owner, p: Owner, i: IntentId, copy: Intent)
    requires Undisturbed(w, w', o) && p != o && p in w.owners && CopyOK(w, p, i, copy)
    ensures CopyOK(w', p, i, copy)
  {
    hide CallsFor;
  }

  lemma OtherKeeps(w: World, w': World, o: Owner, p: Owner)
    requires Undisturbed(w, w', o) && p != o && WorkerOK(w, p)
    ensures WorkerOK(w', p)
  {
    hide CallsFor, CopyOK, NoticesOK, IntentsOK;
    if p in w.workers {
      match w.workers[p]
      case Claimed(i) =>
      case Pushing(r) => assert Announcement(r, p) in w'.notices[..|w.notices|];
      case Attaching(i, copy, r) => CopyStays(w, w', o, p, i, copy);
      case Settling(i, copy, r) => CopyStays(w, w', o, p, i, copy);
      case Finishing(i, copy) => CopyStays(w, w', o, p, i, copy);
      case Creating(i, copy) => CopyStays(w, w', o, p, i, copy);
      case Deciding(i, copy) => CopyStays(w, w', o, p, i, copy);
      case Failing(i, copy) => CopyStays(w, w', o, p, i, copy);
    }
  }

  /** A worker's own step: it is enough to look at that worker, at the queue and at the records. */
  lemma WorkersKeep(w: World, w': World, o: Owner)
    requires (forall p :: WorkerOK(w, p)) && Undisturbed(w, w', o) && WorkerOK(w', o)
    ensures forall p :: WorkerOK(w', p)
  {
    forall p ensures WorkerOK(w', p) { if p != o { OtherKeeps(w, w', o, p); } }
  }

  /** Nothing announced, nothing pushed, no requisition but opened anew or closed. */
  ghost predicate RecordsSame(w: World, w': World) {
    && w'.notices == w.notices && w'.pushes == w.pushes && w.owners <= w'.owners && w'.retired == w.retired
    && (forall r :: r in w.requisitions ==>
          r in w'.requisitions && w'.requisitions[r] == w.requisitions[r].(open := w'.requisitions[r].open)
          && (w'.requisitions[r].open ==> w.requisitions[r].open))
    && (forall r :: r in w'.requisitions && r !in w.requisitions ==>
          !w'.requisitions[r].announced && !HasOpen(w.requisitions, w'.requisitions[r].material, w'.requisitions[r].site))
    && (forall r, r' :: r in w'.requisitions && r' in w'.requisitions && r !in w.requisitions && r' !in w.requisitions ==> r == r')
  }

  lemma RecordsKeep(w: World, w': World)
    requires RecordsSame(w, w') && RetiredOK(w) && NoticesOK(w) && OneOpen(w)
    ensures RetiredOK(w') && NoticesOK(w') && OneOpen(w')
  {
    hide CallsFor;
    assert forall r :: r in w.requisitions && w.requisitions[r].open ==>
             IsOpen(w.requisitions, r, w.requisitions[r].material, w.requisitions[r].site);
    RetiredStays(w, w');
    NoticesStay(w, w');
  }

  lemma RetiredStays(w: World, w': World)
    requires RecordsSame(w, w') && RetiredOK(w)
    ensures RetiredOK(w')
  {
    hide CallsFor;
  }

  lemma NoticesStay(w: World, w': World)
    requires RecordsSame(w, w') && NoticesOK(w)
    ensures NoticesOK(w')
  {
    hide HasOpen;
  }

  lemma RetiredAreGone(w: World)
    requires IntentsOK(w)
    ensures forall i :: i in w.retired ==> i !in w.intents
  {
    forall i | i in w.retired ensures i !in w.intents { assert IntentOK(w, i); }
  }

  lemma ClaimKeeps(w: World, o: Owner, i: IntentId)
    requires Inv(w)
    ensures Inv(ClaimStep(w, o, i))
  {
    hide CallsFor, NoticesOK, RetiredOK, OneOpen;
    var w' := ClaimStep(w, o, i);
    if w' != w {
      assert WorkerOK(w, o);
      RetiredAreGone(w);
      assert Undisturbed(w, w', o);
      forall j ensures IntentOK(w', j) { assert IntentOK(w, j); }
      hide IntentsOK, Undisturbed;
      RecordsKeep(w, w');
      WorkersKeep(w, w', o);
    }
  }

  lemma DecideKeeps(w: World, o: Owner, found: Option<RequisitionId>)
    requires Inv(w) && o in w.workers && w.workers[o].Deciding?
    ensures Inv(DecideStep(w, o, found))
  {
    hide CallsFor, NoticesOK, RetiredOK, OneOpen;
    var w' := DecideStep(w, o, found);
    assert WorkerOK(w, o);
    if w' != w { OwnStepKeeps(w, w', o); }
  }

  /** Worker o moved on, and touched nothing but its own place in the program. */
  lemma OwnStepKeeps(w: World, w': World, o: Owner)
    requires Inv(w) && w' == w.(workers := w'.workers) && WorkerOK(w', o)
    requires forall p :: p != o ==> (p in w.workers <==> p in w'.workers) && (p in w.workers ==> w'.workers[p] == w.workers[p])
    ensures Inv(w')
  {
    hide CallsFor, NoticesOK, RetiredOK, OneOpen;
    RetiredAreGone(w);
    assert Undisturbed(w, w', o);
    forall j ensures IntentOK(w', j) { assert IntentOK(w, j); }
    hide IntentsOK, Undisturbed;
    RecordsKeep(w, w');
    WorkersKeep(w, w', o);
  }

  lemma CreateKeeps(w: World, o: Owner, r: RequisitionId)
    requires Inv(w) && o in w.workers && w.workers[o].Creating?
    ensures Inv(CreateStep(w, o, r))
  {
    hide CallsFor, NoticesOK, RetiredOK, OneOpen;
    var w' := CreateStep(w, o, r);
    assert WorkerOK(w, o);
    if HasOpen(w.requisitions, w.workers[o].copy.material, w.workers[o].copy.site) || r in w.requisitions {
      if w' != w { OwnStepKeeps(w, w', o); }
    } else {
      RetiredAreGone(w);
      assert Undisturbed(w, w', o);
      forall j ensures IntentOK(w', j) { assert IntentOK(w, j); }
      hide IntentsOK, Undisturbed;
      RecordsKeep(w, w');
      WorkersKeep(w, w', o);
    }
  }

  lemma AttachKeeps(w: World, o: Owner)
    requires Inv(w) && o in w.workers && w.workers[o].Attaching?
    ensures Inv(AttachStep(w, o))
  {
    hide CallsFor, NoticesOK, RetiredOK, OneOpen;
    var w' := AttachStep(w, o);
    assert WorkerOK(w, o);
    RetiredAreGone(w);
    assert Undisturbed(w, w', o);
    forall j ensures IntentOK(w', j) { assert IntentOK(w, j); }
    hide IntentsOK, Undisturbed;
    RecordsKeep(w, w');
    WorkersKeep(w, w', o);
  }

  lemma FailureCounted(w: World, o: Owner, j: IntentId)
    requires o in w.workers && w.workers[o].Failing? && WorkerOK(w, o) && IntentOK(w, j)
    ensures IntentOK(RecordFailureStep(w, o), j)
  {
    hide CallsFor, Delay;
  }

  lemma FailureDisturbsNobody(w: World, o: Owner)
    requires o in w.workers && w.workers[o].Failing? && forall i :: i in w.retired ==> i !in w.intents
    ensures Undisturbed(w, RecordFailureStep(w, o), o)
  {
    hide CallsFor, Delay, FailuresOf;
  }

  lemma FailureLeavesRecords(w: World, o: Owner)
    requires o in w.workers && w.workers[o].Failing?
    ensures RecordsSame(w, RecordFailureStep(w, o)) && o !in RecordFailureStep(w, o).workers
  {
    hide CallsFor, Delay, FailuresOf, HasOpen;
  }

  lemma RecordFailureKeeps(w: World, o: Owner)
    requires Inv(w) && o in w.workers && w.workers[o].Failing?
    ensures Inv(RecordFailureStep(w, o))
  {
    hide RecordFailureStep, CallsFor, NoticesOK, RetiredOK, OneOpen, IntentOK;
    var w' := RecordFailureStep(w, o);
    assert WorkerOK(w, o);
    RetiredAreGone(w);
    FailureDisturbsNobody(w, o);
    forall j ensures IntentOK(w', j) { FailureCounted(w, o, j); }
    FailureLeavesRecords(w, o);
    hide Undisturbed, RecordsSame;
    RecordsKeep(w, w');
    WorkersKeep(w, w', o);
  }

  lemma NoticesUnmoved(w: World, w': World)
    requires NoticesOK(w) && OneOpen(w) && w'.requisitions == w.requisitions && w'.notices == w.notices && w'.pushes == w.pushes
    requires w.owners <= w'.owners
    ensures NoticesOK(w') && OneOpen(w')
  {}

  /** o retires an intent it holds, with a requisition announced if it called for one. */
  ghost predicate Retires(w: World, w': World, o: Owner, i: IntentId) {
    && HeldBy(w, i, o) && w'.intents == w.intents - {i} && w'.retired == w.retired[i := w.intents[i]] && w'.failures == w.failures
    && (CallsFor(w.intents[i].snapshot) ==>
          && w.intents[i].requisition.Some? && w.intents[i].requisition.value in w'.requisitions
          && w'.requisitions[w.intents[i].requisition.value].announced)
  }

  lemma RetiredGrows(w: World, w': World, o: Owner, i: IntentId)
    requires RetiredOK(w) && IntentOK(w, i) && Undisturbed(w, w', o) && Retires(w, w', o, i)
    ensures RetiredOK(w')
  {
    hide CallsFor;
  }

  lemma OneLess(w: World, w': World, o: Owner, i: IntentId, j: IntentId)
    requires IntentOK(w, j) && Undisturbed(w, w', o) && Retires(w, w', o, i)
    ensures IntentOK(w', j)
  {
    hide CallsFor;
  }

  lemma RetireKeeps(w: World, w': World, o: Owner, i: IntentId)
    requires Inv(w) && Undisturbed(w, w', o) && Retires(w, w', o, i)
    requires WorkerOK(w', o) && NoticesOK(w') && OneOpen(w')
    ensures Inv(w')
  {
    hide NoticesOK, OneOpen, WorkerOK, Undisturbed, Retires, RetiredOK, IntentOK;
    forall j ensures IntentOK(w', j) { assert IntentOK(w, j); OneLess(w, w', o, i, j); }
    WorkersKeep(w, w', o);
    assert IntentOK(w, i);
    RetiredGrows(w, w', o, i);
  }

  lemma FinishKeeps(w: World, o: Owner)
    requires Inv(w) && o in w.workers && w.workers[o].Finishing?
    ensures Inv(FinishStep(w, o))
  {
    hide CallsFor, NoticesOK, RetiredOK, OneOpen;
    var w', i := FinishStep(w, o), w.workers[o].i;
    assert WorkerOK(w, o);
    if HeldBy(w, i, o) {
      RetiredAreGone(w);
      assert Undisturbed(w, w', o);
      NoticesUnmoved(w, w');
      RetireKeeps(w, w', o, i);
    } else {
      OwnStepKeeps(w, w', o);
    }
  }

  lemma SettleKeeps(w: World, o: Owner)
    requires Inv(w) && o in w.workers && w.workers[o].Settling?
    ensures Inv(SettleStep(w, o))
  {
    hide CallsFor, NoticesOK, RetiredOK, OneOpen;
    var w', i, r := SettleStep(w, o), w.workers[o].i, w.workers[o].r;
    assert WorkerOK(w, o);
    if !HeldBy(w, i, o) || w.intents[i].lease.value.expires <= w.now {
      OwnStepKeeps(w, w', o);
    } else {
      RetiredAreGone(w);
      assert w.intents[i].requisition == Some(r);
      if w.requisitions[r].announced { NoticesUnmoved(w, w'); } else { NoticeGiven(w, w', o, r); }
      SettleDisturbsNobody(w, o);
      hide Undisturbed;
      RetireKeeps(w, w', o, i);
    }
  }

  lemma SettleDisturbsNobody(w: World, o: Owner)
    requires o in w.workers && w.workers[o].Settling? && forall i :: i in w.retired ==> i !in w.intents
    ensures Undisturbed(w, SettleStep(w, o), o)
  {
    hide CallsFor;
  }

  /** The one who finds the requisition unannounced announces it, and nobody has before. */
  lemma NoticeGiven(w: World, w': World, o: Owner, r: RequisitionId)
    requires NoticesOK(w) && OneOpen(w) && r in w.requisitions && !w.requisitions[r].announced && o in w.owners
    requires w'.requisitions == w.requisitions[r := w.requisitions[r].(announced := true)]
    requires w'.notices == w.notices + [Announcement(r, o)] && w'.pushes == w.pushes && w'.owners == w.owners
    ensures NoticesOK(w') && OneOpen(w')
    ensures Announcement(r, o) in w'.notices && Announcement(r, o) !in w'.pushes
  {
    assert w'.notices[|w.notices|] == Announcement(r, o);
    forall q | q in w'.requisitions && w'.requisitions[q].announced ensures exists n :: n in w'.notices && n.r == q {
      if q != r {
        var n :| n in w.notices && n.r == q;
        assert n in w'.notices;
      } else {
        assert Announcement(r, o) in w'.notices;
      }
    }
  }

  lemma PushKeeps(w: World, o: Owner)
    requires Inv(w) && o in w.workers && w.workers[o].Pushing?
    ensures Inv(Step(w, Push(o)))
  {
    hide CallsFor;
    var w', p := Step(w, Push(o)), Announcement(w.workers[o].r, o);
    assert WorkerOK(w, o);
    RetiredAreGone(w);
    forall k | 0 <= k < |w.pushes| ensures w.pushes[k].r != p.r {
      assert w.pushes[k] in w.notices && p in w.notices;
    }
    assert NoticesOK(w') && RetiredOK(w') && OneOpen(w');
    hide NoticesOK, RetiredOK, OneOpen;
    assert Undisturbed(w, w', o);
    forall j ensures IntentOK(w', j) { assert IntentOK(w, j); }
    hide IntentOK, Undisturbed;
    WorkersKeep(w, w', o);
  }

  lemma StepKeeps(w: World, e: Event)
    requires Inv(w)
    ensures Inv(Step(w, e))
  {
    hide CallsFor, NoticesOK, RetiredOK, OneOpen, Delay, IntentsOK, WorkerOK, ClaimStep, DecideStep, CreateStep, AttachStep, SettleStep, FinishStep, RecordFailureStep;
    match e
    case Claim(o, i) => ClaimKeeps(w, o, i);
    case Decide(o, found) => if o in w.workers && w.workers[o].Deciding? { DecideKeeps(w, o, found); }
    case Create(o, r) => if o in w.workers && w.workers[o].Creating? { CreateKeeps(w, o, r); }
    case Attach(o) => if o in w.workers && w.workers[o].Attaching? { AttachKeeps(w, o); }
    case Settle(o) => if o in w.workers && w.workers[o].Settling? { SettleKeeps(w, o); }
    case Finish(o) => if o in w.workers && w.workers[o].Finishing? { FinishKeeps(w, o); }
    case RecordFailure(o) => if o in w.workers && w.workers[o].Failing? { RecordFailureKeeps(w, o); }
    case Push(o) => if o in w.workers && w.workers[o].Pushing? { PushKeeps(w, o); }
    case Read(o) => MovedOn(w, e, o);
    case Fail(o) => MovedOn(w, e, o);
    case Crash(o) => MovedOn(w, e, o);
    case _ => NobodyMoved(w, e);
  }

  lemma MovedOn(w: World, e: Event, o: Owner)
    requires Inv(w) && (e == Read(o) || e == Fail(o) || e == Crash(o))
    ensures Inv(Step(w, e))
  {
    hide CallsFor, NoticesOK, RetiredOK, OneOpen;
    assert WorkerOK(w, o);
    if o in w.workers && w.workers[o].Claimed? { assert IntentOK(w, w.workers[o].i); }
    var w' := Step(w, e);
    if w' != w { OwnStepKeeps(w, w', o); }
  }

  /** Time passes, intents are staged and swept, requisitions opened and closed by hand; no worker moves. */
  lemma NobodyMoved(w: World, e: Event)
    requires Inv(w) && (e.Tick? || e.Stage? || e.Order? || e.CloseRequisition? || e.Sweep?)
    ensures Inv(Step(w, e))
  {
    hide NoticesOK, RetiredOK, OneOpen, IntentOK, WorkerOK, RecordsSame, Undisturbed, Step;
    var w' := Step(w, e);
    RetiredAreGone(w);
    forall j ensures IntentOK(w', j) { assert IntentOK(w, j); IntentStays(w, e, j); }
    RecordsStay(w, e);
    RecordsKeep(w, w');
    forall p: Owner ensures WorkerOK(w', p) {
      UndisturbedByAll(w, e, p + 1);
      OtherKeeps(w, w', p + 1, p);
    }
  }

  lemma IntentStays(w: World, e: Event, j: IntentId)
    requires IntentOK(w, j) && (e.Tick? || e.Stage? || e.Order? || e.CloseRequisition? || e.Sweep?)
    ensures IntentOK(Step(w, e), j)
  {
    hide CallsFor, Delay, HasOpen;
  }

  lemma RecordsStay(w: World, e: Event)
    requires e.Tick? || e.Stage? || e.Order? || e.CloseRequisition? || e.Sweep?
    ensures RecordsSame(w, Step(w, e))
  {
    hide HasOpen;
  }

  lemma UndisturbedByAll(w: World, e: Event, o: Owner)
    requires (forall i :: i in w.retired ==> i !in w.intents)
    requires e.Tick? || e.Stage? || e.Order? || e.CloseRequisition? || e.Sweep?
    ensures Undisturbed(w, Step(w, e), o)
  {
    hide Step, Undisturbed;
    if e.Stage? || e.Sweep? { QueueTouched(w, e, o); } else { QueueUntouched(w, e, o); }
  }

  lemma QueueUntouched(w: World, e: Event, o: Owner)
    requires (forall i :: i in w.retired ==> i !in w.intents)
    requires e.Tick? || e.Order? || e.CloseRequisition?
    ensures Undisturbed(w, Step(w, e), o)
  {
    hide HasOpen;
  }

  lemma QueueTouched(w: World, e: Event, o: Owner)
    requires (forall i :: i in w.retired ==> i !in w.intents)
    requires e.Stage? || e.Sweep?
    ensures Undisturbed(w, Step(w, e), o)
  {
    hide Delay;
    var w' := Step(w, e);
    forall i, p | HeldBy(w', i, p)
      ensures HeldBy(w, i, p) && w'.intents[i] == w.intents[i].(nextAttemptAt := w'.intents[i].nextAttemptAt)
    {
      if i != e.i { assert w'.intents[i] == w.intents[i]; }
    }
  }

  lemma {:induction false} RunKeeps(w: World, es: seq<Event>)
    requires Inv(w)
    ensures Inv(Run(w, es))
    decreases |es|
  {
    if es != [] {
      StepKeeps(w, es[0]);
      RunKeeps(Step(w, es[0]), es[1..]);
    }
  }

  lemma RunFromStart(es: seq<Event>)
    ensures Inv(Run(Start, es))
  {
    RunKeeps(Start, es);
  }

  // ---- Main results, over every run --------------------------------------------------------

  /** Who announced r: the notices written for it. */
  function NoticesOf(notices: seq<Announcement>, r: RequisitionId): seq<Announcement> {
    if notices == [] then []
    else (if notices[0].r == r then [notices[0]] else []) + NoticesOf(notices[1..], r)
  }

  lemma {:induction false} NoticesOfUnique(notices: seq<Announcement>, r: RequisitionId)
    requires forall k, l :: 0 <= k < l < |notices| ==> notices[k].r != notices[l].r
    ensures |NoticesOf(notices, r)| <= 1
    ensures |NoticesOf(notices, r)| == 1 <==> exists n :: n in notices && n.r == r
    ensures forall n :: n in NoticesOf(notices, r) <==> n in notices && n.r == r
  {
    if notices != [] {
      NoticesOfUnique(notices[1..], r);
      assert notices == [notices[0]] + notices[1..];
      if notices[0].r == r {
        forall n | n in notices[1..] ensures n.r != r {
          var k :| 0 <= k < |notices[1..]| && notices[1..][k] == n;
          assert notices[k + 1] == n;
        }
        assert |NoticesOf(notices[1..], r)| == 0;
      }
    }
  }

  /** Announced means announced by exactly one transaction, pushed at most once, and only by the worker that announced it. */
  lemma AnnouncedExactlyOnce(es: seq<Event>, r: RequisitionId)
    ensures var w := Run(Start, es);
            && |NoticesOf(w.notices, r)| == (if r in w.requisitions && w.requisitions[r].announced then 1 else 0)
            && |NoticesOf(w.pushes, r)| <= 1
            && forall p :: p in NoticesOf(w.pushes, r) ==> p in NoticesOf(w.notices, r)
  {
    RunFromStart(es);
    var w := Run(Start, es);
    hide Run, WorkerOK, IntentsOK, RetiredOK, OneOpen;
    NoticesOfUnique(w.notices, r);
    NoticesOfUnique(w.pushes, r);
  }

  /** The store is tracked, not full, and at or below its threshold. */
  predicate RunsLow(s: Snapshot) {
    0.0 < s.capacity && s.level < s.capacity && 100.0 * s.level <= s.thresholdPct * s.capacity
  }

  lemma CallsForIfLow(s: Snapshot)
    ensures CallsFor(s) <==> RunsLow(s)
  {
    if s.capacity > 0.0 { assert s.level / s.capacity * 100.0 * s.capacity == 100.0 * s.level; }
  }

  /** One requisition of that material for that site, announced by exactly one transaction. */
  ghost predicate AnnouncedFor(w: World, r: RequisitionId, material: nat, site: nat) {
    && r in w.requisitions && w.requisitions[r].material == material && w.requisitions[r].site == site
    && w.requisitions[r].announced && |NoticesOf(w.notices, r)| == 1
  }

  /** An intent whose store ran low leaves the queue only with a requisition announced; any other leaves it without one. */
  lemma RetiredOnlyWhenAnnounced(es: seq<Event>, i: IntentId)
    requires i in Run(Start, es).retired
    ensures var w := Run(Start, es);
            if RunsLow(w.retired[i].snapshot)
            then w.retired[i].requisition.Some?
                 && AnnouncedFor(w, w.retired[i].requisition.value, w.retired[i].material, w.retired[i].site)
            else w.retired[i].requisition.None?
  {
    hide CallsFor, Run, WorkerOK;
    RunFromStart(es);
    CallsForIfLow(Run(Start, es).retired[i].snapshot);
    if RunsLow(Run(Start, es).retired[i].snapshot) { AnnouncedExactlyOnce(es, Run(Start, es).retired[i].requisition.value); }
  }

  /** The intent as it was staged, whether still queued or not. */
  predicate AsksFor(w: World, i: IntentId, material: nat, site: nat, snapshot: Snapshot) {
    || (i in w.intents && w.intents[i].material == material && w.intents[i].site == site && w.intents[i].snapshot == snapshot)
    || (i in w.retired && w.retired[i].material == material && w.retired[i].site == site && w.retired[i].snapshot == snapshot)
  }

  /** What a worker orders, it orders for an intent whose store ran low, to fill that store. */
  lemma OrdersOnlyWhenLow(es: seq<Event>, o: Owner, r: RequisitionId)
    requires var w := Run(Start, es); r !in w.requisitions && r in Step(w, Create(o, r)).requisitions
    ensures var w := Run(Start, es);
            var made := Step(w, Create(o, r)).requisitions[r];
            exists i, snapshot :: AsksFor(w, i, made.material, made.site, snapshot) && RunsLow(snapshot)
                                  && made.open && made.quantity == snapshot.capacity - snapshot.level > 0.0
  {
    hide CallsFor, Run;
    RunFromStart(es);
    var w := Run(Start, es);
    assert WorkerOK(w, o);
    var copy := w.workers[o].copy;
    CallsForIfLow(copy.snapshot);
    assert AsksFor(w, w.workers[o].i, copy.material, copy.site, copy.snapshot);
  }

  lemma CreatingMeansLow(es: seq<Event>, o: Owner)
    requires var w := Run(Start, es); o in w.workers && w.workers[o].Creating?
    ensures var w := Run(Start, es);
            var copy := w.workers[o].copy;
            RunsLow(copy.snapshot) && AsksFor(w, w.workers[o].i, copy.material, copy.site, copy.snapshot)
  {
    hide CallsFor, Run;
    RunFromStart(es);
    assert WorkerOK(Run(Start, es), o);
    CallsForIfLow(Run(Start, es).workers[o].copy.snapshot);
  }

  /** Never two open requisitions for one material at one site. */
  lemma OneOpenPerMaterialAndSite(es: seq<Event>, r: RequisitionId, r': RequisitionId)
    requires var w := Run(Start, es);
             && r in w.requisitions
             && IsOpen(w.requisitions, r, w.requisitions[r].material, w.requisitions[r].site)
             && IsOpen(w.requisitions, r', w.requisitions[r].material, w.requisitions[r].site)
    ensures r == r'
  {
    hide Run, WorkerOK, IntentOK;
    RunFromStart(es);
  }

  /** Every recorded failure counts once, whoever competes for the row; a row is parked exactly from the fourteenth on. */
  lemma FailuresAreCounted(es: seq<Event>, i: IntentId)
    requires i in Run(Start, es).intents
    ensures var w := Run(Start, es);
            && w.intents[i].attempts == FailuresOf(w, i)
            && (w.intents[i].parked <==> 14 <= FailuresOf(w, i))
  {
    hide Run, WorkerOK;
    RunFromStart(es);
    assert IntentOK(Run(Start, es), i);
  }

  /** A worker still busy with i whose lease on it is gone. */
  ghost predicate Lost(w: World, i: IntentId, o: Owner) {
    o in w.owners && !HeldBy(w, i, o) && (o in w.workers ==> !w.workers[o].Pushing? && w.workers[o].i == i)
  }

  lemma LostStays(w: World, e: Event, i: IntentId, o: Owner)
    requires Lost(w, i, o)
    ensures Lost(Step(w, e), i, o)
  {
    LeaseStaysLost(w, e, i, o);
    StillBusyElsewhere(w, e, i, o);
    hide Step, HeldBy;
  }

  /** Whose step it is. */
  function ActorOf(e: Event): Option<Owner> {
    match e
    case Claim(o, _) => Some(o)
    case Read(o) => Some(o)
    case Decide(o, _) => Some(o)
    case Create(o, _) => Some(o)
    case Attach(o) => Some(o)
    case Settle(o) => Some(o)
    case Finish(o) => Some(o)
    case Fail(o) => Some(o)
    case RecordFailure(o) => Some(o)
    case Push(o) => Some(o)
    case Crash(o) => Some(o)
    case _ => None
  }

  lemma OnlyOwnSteps(w: World, e: Event, o: Owner)
    requires ActorOf(e) != Some(o)
    ensures (o in Step(w, e).workers <==> o in w.workers) && (o in w.workers ==> Step(w, e).workers[o] == w.workers[o])
  {
    hide Delay, HasOpen, FailuresOf, ClaimStep, DecideStep, CreateStep, AttachStep, SettleStep, FinishStep, FailStep, RecordFailureStep;
    var w' := Step(w, e);
    if ActorOf(e).Some? {
      var p := ActorOf(e).value;
      assert w'.workers - {p} == w.workers - {p};
      SameElsewhere(w.workers, w'.workers, p, o);
    } else {
      assert w'.workers == w.workers;
    }
  }

  lemma SameElsewhere(a: map<Owner, Worker>, b: map<Owner, Worker>, p: Owner, o: Owner)
    requires o != p && a - {p} == b - {p}
    ensures (o in a <==> o in b) && (o in a ==> a[o] == b[o])
  {
    assert o in a <==> o in a - {p};
    assert o in b <==> o in b - {p};
    if o in a { assert (a - {p})[o] == a[o] && (b - {p})[o] == b[o]; }
  }

  lemma OwnStepLost(w: World, e: Event, i: IntentId, o: Owner)
    requires Lost(w, i, o) && o in w.workers && ActorOf(e) == Some(o)
    ensures var w' := Step(w, e); o in w'.workers ==> !w'.workers[o].Pushing? && w'.workers[o].i == i
  {
    hide Delay, HasOpen, CallsFor, IsOpen, FailuresOf;
    match w.workers[o]
    case Claimed(_) =>
    case Deciding(_, _) =>
    case Creating(_, _) =>
    case Attaching(_, _, _) =>
    case Settling(_, _, _) =>
    case Finishing(_, _) =>
    case Failing(_, _) =>
  }

  lemma StillBusyElsewhere(w: World, e: Event, i: IntentId, o: Owner)
    requires Lost(w, i, o)
    ensures var w' := Step(w, e); o in w'.workers ==> !w'.workers[o].Pushing? && w'.workers[o].i == i
  {
    if ActorOf(e) != Some(o) {
      OnlyOwnSteps(w, e, o);
    } else if o in w.workers {
      OwnStepLost(w, e, i, o);
    } else {
      assert Step(w, e).workers - {o} == w.workers;
    }
  }

  lemma LeaseStaysLost(w: World, e: Event, i: IntentId, o: Owner)
    requires o in w.owners && !HeldBy(w, i, o)
    ensures o in Step(w, e).owners && !HeldBy(Step(w, e), i, o)
  {
    hide Delay, HasOpen, CallsFor, IsOpen, FailuresOf;
    match e
    case Claim(p, j) =>
    case Attach(p) =>
    case Settle(p) =>
    case RecordFailure(p) =>
    case Sweep(j) =>
    case Stage(j, _, _, _) =>
    case _ =>
  }

  /** A lost lease is lost for good. */
  lemma {:induction false} LostForGood(w: World, es: seq<Event>, i: IntentId, o: Owner)
    requires Lost(w, i, o)
    ensures Lost(Run(w, es), i, o)
    decreases |es|
  {
    hide Step, Lost;
    if es != [] {
      LostStays(w, es[0], i, o);
      LostForGood(Step(w, es[0]), es[1..], i, o);
    }
  }

  /** A worker gets a row exactly if nobody's lease on it is still running, and then for five minutes. */
  lemma ClaimsExactlyWhenFree(w: World, o: Owner, i: IntentId)
    requires o !in w.owners && o !in w.workers
    ensures var w' := Step(w, Claim(o, i));
            && (o in w'.workers <==> i in w.intents && (w.intents[i].lease == None || w.intents[i].lease.value.expires < w.now))
            && (o in w'.workers ==>
                  && w'.workers[o] == Claimed(i)
                  && w'.intents == w.intents[i := w.intents[i].(lease := Some(Lease(o, w.now + 300_000)))])
            && (o !in w'.workers ==> w' == w)
  {}

  predicate LeaseRuns(w: World, i: IntentId, lease: Lease) {
    i in w.intents ==> w.intents[i].lease == Some(lease)
  }

  /** The row is as it was but for who else may not have it: its lease runs, or it is retired. */
  predicate LeaseKept(w: World, i: IntentId, lease: Lease) {
    LeaseRuns(w, i, lease) && (i !in w.intents ==> i in w.retired)
  }

  lemma StepKeepsLease(w: World, e: Event, i: IntentId, lease: Lease)
    requires LeaseRuns(w, i, lease) && w.now <= lease.expires && e != RecordFailure(lease.owner) && (i !in w.intents ==> i in w.retired)
    ensures LeaseKept(Step(w, e), i, lease) && w.now <= Step(w, e).now
  {
    StepForward(w, e);
    hide Delay, HasOpen, IsOpen, CallsFor, FailuresOf, ClaimStep, DecideStep, CreateStep, AttachStep, SettleStep, FinishStep, FailStep, RecordFailureStep;
    match e
    case Claim(p, j) => ClaimKeepsLease(w, p, j, i, lease);
    case Attach(p) => if p in w.workers && w.workers[p].Attaching? { AttachKeepsLease(w, p, i, lease); }
    case Settle(p) => if p in w.workers && w.workers[p].Settling? { SettleKeepsLease(w, p, i, lease); }
    case Finish(p) => if p in w.workers && w.workers[p].Finishing? { FinishKeepsLease(w, p, i, lease); }
    case RecordFailure(p) => if p in w.workers && w.workers[p].Failing? { FailureKeepsLease(w, p, i, lease); }
    case Decide(p, found) => if p in w.workers && w.workers[p].Deciding? { OthersKeepLease(w, e, p); }
    case Create(p, r) => if p in w.workers && w.workers[p].Creating? { OthersKeepLease(w, e, p); }
    case Fail(p) => if p in w.workers { OthersKeepLease(w, e, p); }
    case Sweep(j) =>
    case Stage(j, _, _, _) =>
    case _ =>
  }

  lemma ClaimKeepsLease(w: World, p: Owner, j: IntentId, i: IntentId, lease: Lease)
    requires LeaseKept(w, i, lease) && w.now <= lease.expires
    ensures LeaseKept(ClaimStep(w, p, j), i, lease)
  {}

  lemma AttachKeepsLease(w: World, p: Owner, i: IntentId, lease: Lease)
    requires LeaseKept(w, i, lease) && p in w.workers && w.workers[p].Attaching?
    ensures LeaseKept(AttachStep(w, p), i, lease)
  {}

  lemma SettleKeepsLease(w: World, p: Owner, i: IntentId, lease: Lease)
    requires LeaseKept(w, i, lease) && p in w.workers && w.workers[p].Settling?
    ensures LeaseKept(SettleStep(w, p), i, lease)
  {}

  lemma FinishKeepsLease(w: World, p: Owner, i: IntentId, lease: Lease)
    requires LeaseKept(w, i, lease) && p in w.workers && w.workers[p].Finishing?
    ensures LeaseKept(FinishStep(w, p), i, lease)
  {}

  lemma FailureKeepsLease(w: World, p: Owner, i: IntentId, lease: Lease)
    requires LeaseKept(w, i, lease) && p in w.workers && w.workers[p].Failing? && p != lease.owner
    ensures LeaseKept(RecordFailureStep(w, p), i, lease)
  {
    hide Delay, FailuresOf;
  }

  lemma OthersKeepLease(w: World, e: Event, p: Owner)
    requires p in w.workers
    requires match e
             case Decide(o, _) => o == p && w.workers[p].Deciding?
             case Create(o, _) => o == p && w.workers[p].Creating?
             case Fail(o) => o == p
             case _ => false
    ensures Step(w, e).intents == w.intents && Step(w, e).retired == w.retired
  {
    hide CallsFor, HasOpen, IsOpen;
  }

  lemma {:induction false} NowGrows(w: World, es: seq<Event>)
    ensures w.now <= Run(w, es).now
    decreases |es|
  {
    hide Step;
    if es != [] {
      StepForward(w, es[0]);
      NowGrows(Step(w, es[0]), es[1..]);
    }
  }

  lemma StepForward(w: World, e: Event)
    ensures w.now <= Step(w, e).now
  {
    hide ClaimStep, DecideStep, CreateStep, AttachStep, SettleStep, FinishStep, FailStep, RecordFailureStep, Delay, HasOpen;
  }

  /** While a worker's lease runs, and unless that worker gives the row back by recording a failure, nobody else gets the row. */
  lemma {:induction false} LeaseExcludesOthers(w: World, es: seq<Event>, i: IntentId, lease: Lease)
    requires i in w.intents && w.intents[i].lease == Some(lease)
    requires Run(w, es).now <= lease.expires && forall k :: 0 <= k < |es| ==> es[k] != RecordFailure(lease.owner)
    ensures LeaseRuns(Run(w, es), i, lease)
    ensures forall p :: p !in Run(w, es).workers ==> p !in Step(Run(w, es), Claim(p, i)).workers
  {
    LeaseLasts(w, es, i, lease);
  }

  lemma {:induction false} LeaseLasts(w: World, es: seq<Event>, i: IntentId, lease: Lease)
    requires LeaseRuns(w, i, lease) && (i !in w.intents ==> i in w.retired)
    requires Run(w, es).now <= lease.expires && forall k :: 0 <= k < |es| ==> es[k] != RecordFailure(lease.owner)
    ensures LeaseRuns(Run(w, es), i, lease)
    decreases |es|
  {
    hide Step, LeaseRuns;
    if es != [] {
      assert forall k :: 0 <= k < |es[1..]| ==> es[1..][k] == es[k + 1];
      NowGrows(w, es);
      StepKeepsLease(w, es[0], i, lease);
      LeaseLasts(Step(w, es[0]), es[1..], i, lease);
    }
  }

  /** When a row's turn comes again: an hour after it is picked, and two, four and so on after each failure, never more than two days. */
  lemma BackoffDoubles(attempts: nat)
    ensures Delay(0) == 3_600_000
    ensures Delay(attempts + 1) == if 2 * Delay(attempts) <= 172_800_000 then 2 * Delay(attempts) else 172_800_000
  {}

  lemma PicksAndFailuresPushBack(w: World, i: IntentId, o: Owner)
    ensures i in w.intents && w.intents[i].nextAttemptAt <= w.now && !w.intents[i].parked ==>
              Step(w, Sweep(i)).intents == w.intents[i := w.intents[i].(nextAttemptAt := w.now + 3_600_000)]
    ensures !(i in w.intents && w.intents[i].nextAttemptAt <= w.now && !w.intents[i].parked) ==> Step(w, Sweep(i)) == w
    ensures o in w.workers && w.workers[o].Failing? && w.workers[o].i == i && HeldBy(w, i, o) ==>
              var failed := Step(w, RecordFailure(o)).intents[i];
              failed.lease == None && failed.attempts == w.workers[o].copy.attempts + 1
              && failed.nextAttemptAt == w.now + Delay(failed.attempts)
  {
    BackoffDoubles(0);
  }

  /** A worker that fails while it holds its row gives it back with the failure counted, due again after the backoff, parked from the fourteenth. */
  lemma FailuresGiveBack(es: seq<Event>, o: Owner)
    requires var w := Run(Start, es);
             && o in w.workers && (w.workers[o].Deciding? || w.workers[o].Creating? || w.workers[o].Attaching? || w.workers[o].Settling?)
             && HeldBy(w, w.workers[o].i, o)
    ensures var w := Run(Start, es);
            var i := w.workers[o].i;
            var w' := Step(Step(w, Fail(o)), RecordFailure(o));
            && o !in w'.workers && i in w'.intents
            && var (was, now) := (w.intents[i], w'.intents[i]);
            && now == was.(attempts := was.attempts + 1, nextAttemptAt := w.now + Delay(was.attempts + 1), lease := None, parked := now.parked)
            && (now.parked <==> was.attempts + 1 >= 14)
  {
    hide Run, Delay, CallsFor;
    RunFromStart(es);
    var w := Run(Start, es);
    assert WorkerOK(w, o) && IntentOK(w, w.workers[o].i);
  }

  /** Whoever announced a requisition pushes it, and is then done. */
  lemma PushesOnce(w: World, o: Owner)
    requires o in w.workers && w.workers[o].Pushing?
    ensures Step(w, Push(o)).pushes == w.pushes + [Announcement(w.workers[o].r, o)] && o !in Step(w, Push(o)).workers
  {}

  /** A worker about to create one takes the open requisition if another got there first, and makes its own only if not. */
  lemma LoserTakesTheWinners(w: World, o: Owner, r: RequisitionId)
    requires o in w.workers && w.workers[o].Creating?
    ensures var copy := w.workers[o].copy;
            var w' := Step(w, Create(o, r));
            var theirs := r in w.requisitions && w.requisitions[r].open && w.requisitions[r].material == copy.material && w.requisitions[r].site == copy.site;
            var any := exists q :: q in w.requisitions && w.requisitions[q].open
                                   && w.requisitions[q].material == copy.material && w.requisitions[q].site == copy.site;
            && (theirs ==> w'.requisitions == w.requisitions && o in w'.workers && w'.workers[o] == Attaching(w.workers[o].i, copy, r))
            && (any && !theirs ==> w' == w)
            && (!any && r !in w.requisitions ==> o in w'.workers && w'.workers[o] == Attaching(w.workers[o].i, copy, r) && r in w'.requisitions)
  {
    assert forall q :: q in w.requisitions ==>
             (IsOpen(w.requisitions, q, w.workers[o].copy.material, w.workers[o].copy.site)
              <==> w.requisitions[q].open && w.requisitions[q].material == w.workers[o].copy.material && w.requisitions[q].site == w.workers[o].copy.site);
  }

  /** People open requisitions too, where none is open, and close them; both leave every other requisition as it was. */
  lemma OpenedAndClosedByHand(w: World, r: RequisitionId, material: nat, site: nat, quantity: real)
    ensures var any := exists q :: q in w.requisitions && w.requisitions[q].open && w.requisitions[q].material == material && w.requisitions[q].site == site;
            Step(w, Order(r, material, site, quantity)).requisitions
            == if !any && r !in w.requisitions then w.requisitions[r := Requisition(material, site, quantity, true, false)] else w.requisitions
    ensures Step(w, CloseRequisition(r)).requisitions
            == if r in w.requisitions then w.requisitions[r := w.requisitions[r].(open := false)] else w.requisitions
  {
    forall q | q in w.requisitions
      ensures IsOpen(w.requisitions, q, material, site) <==> w.requisitions[q].open && w.requisitions[q].material == material && w.requisitions[q].site == site
    {}
  }

  predicate IsWrite(e: Event, o: Owner) {
    e in {Attach(o), Settle(o), Finish(o), RecordFailure(o), Push(o)}
  }

  /**
   However long ago a worker lost its lease, it commits nothing any more: no
   progress, no notice, no removal, no failure count, no push. (An insert of a
   requisition is not fenced; the next holder finds it open.)
   */
  lemma LostLeaseWritesNothing(w: World, es: seq<Event>, e: Event, i: IntentId, o: Owner)
    requires Lost(w, i, o) && IsWrite(e, o)
    ensures var w1 := Run(w, es);
            Step(w1, e) == w1 || Step(w1, e) == w1.(workers := w1.workers - {o})
  {
    LostForGood(w, es, i, o);
  }

  lemma StepKeepsAsk(w: World, e: Event, i: IntentId, material: nat, site: nat, snapshot: Snapshot)
    requires AsksFor(w, i, material, site, snapshot) && (i in w.intents <==> i !in w.retired)
    ensures AsksFor(Step(w, e), i, material, site, snapshot)
  {
    hide Delay, HasOpen, IsOpen, CallsFor, FailuresOf, ClaimStep, AttachStep, SettleStep, FinishStep, RecordFailureStep, DecideStep, CreateStep, FailStep;
    match e
    case Claim(p, j) => ClaimKeepsAsk(w, p, j, i);
    case Attach(p) => if p in w.workers && w.workers[p].Attaching? { AttachKeepsAsk(w, p, i); }
    case Settle(p) => if p in w.workers && w.workers[p].Settling? { SettleKeepsAsk(w, p, i); }
    case Finish(p) => if p in w.workers && w.workers[p].Finishing? { FinishKeepsAsk(w, p, i); }
    case RecordFailure(p) => if p in w.workers && w.workers[p].Failing? { FailureKeepsAsk(w, p, i); }
    case Decide(p, found) => if p in w.workers && w.workers[p].Deciding? { DecideKeepsAsk(w, p, found, i); }
    case Create(p, r) => if p in w.workers && w.workers[p].Creating? { CreateKeepsAsk(w, p, r, i); }
    case Fail(p) => if p in w.workers { FailKeepsAsk(w, p, i); }
    case Sweep(j) =>
    case Stage(j, _, _, _) =>
    case _ =>
  }

  /** What intent i asks for is the same, queued or retired. */
  predicate SameAskAt(w: World, w': World, i: IntentId) {
    && (i in w.intents ==>
          || (i in w'.intents && SameAsk(w'.intents[i], w.intents[i]))
          || (i in w'.retired && SameAsk(w'.retired[i], w.intents[i])))
    && (i !in w.intents && i in w.retired ==> i in w'.retired && w'.retired[i] == w.retired[i])
  }

  lemma ClaimKeepsAsk(w: World, o: Owner, j: IntentId, i: IntentId)
    ensures SameAskAt(w, ClaimStep(w, o, j), i)
  {}

  lemma AttachKeepsAsk(w: World, o: Owner, i: IntentId)
    requires o in w.workers && w.workers[o].Attaching?
    ensures SameAskAt(w, AttachStep(w, o), i)
  {}

  lemma SettleKeepsAsk(w: World, o: Owner, i: IntentId)
    requires o in w.workers && w.workers[o].Settling?
    ensures SameAskAt(w, SettleStep(w, o), i)
  {}

  lemma FinishKeepsAsk(w: World, o: Owner, i: IntentId)
    requires o in w.workers && w.workers[o].Finishing?
    ensures SameAskAt(w, FinishStep(w, o), i)
  {}

  lemma FailureKeepsAsk(w: World, o: Owner, i: IntentId)
    requires o in w.workers && w.workers[o].Failing?
    ensures SameAskAt(w, RecordFailureStep(w, o), i)
  {
    hide Delay, FailuresOf;
  }

  lemma DecideKeepsAsk(w: World, o: Owner, found: Option<RequisitionId>, i: IntentId)
    requires o in w.workers && w.workers[o].Deciding?
    ensures SameAskAt(w, DecideStep(w, o, found), i)
  {}

  lemma CreateKeepsAsk(w: World, o: Owner, r: RequisitionId, i: IntentId)
    requires o in w.workers && w.workers[o].Creating?
    ensures SameAskAt(w, CreateStep(w, o, r), i)
  {}

  lemma FailKeepsAsk(w: World, o: Owner, i: IntentId)
    requires o in w.workers
    ensures SameAskAt(w, FailStep(w, o), i)
  {}

  lemma {:induction false} RunKeepsAsk(w: World, es: seq<Event>, i: IntentId, material: nat, site: nat, snapshot: Snapshot)
    requires Inv(w) && AsksFor(w, i, material, site, snapshot)
    ensures AsksFor(Run(w, es), i, material, site, snapshot)
    decreases |es|
  {
    hide AsksFor, Step, Inv;
    if es != [] {
      InOnePlace(w, i, material, site, snapshot);
      StepKeepsAsk(w, es[0], i, material, site, snapshot);
      StepKeeps(w, es[0]);
      RunKeepsAsk(Step(w, es[0]), es[1..], i, material, site, snapshot);
    }
  }

  lemma InOnePlace(w: World, i: IntentId, material: nat, site: nat, snapshot: Snapshot)
    requires Inv(w) && AsksFor(w, i, material, site, snapshot)
    ensures i in w.intents <==> i !in w.retired
  {
    hide WorkerOK, RetiredOK, NoticesOK, OneOpen, CallsFor;
    assert IntentOK(w, i);
  }

  /**
   From any reachable state any intent can still be drained by one worker, once the
   last lease on it has run out; if its store ran low, with a requisition announced.
   */
  lemma NoIntentIsStuck(es: seq<Event>, i: IntentId)
    requires i in Run(Start, es).intents
    ensures exists more ::
              var (asked, w) := (Run(Start, es).intents[i], Run(Start, es + more));
              && i in w.retired
              && (RunsLow(asked.snapshot) ==>
                    w.retired[i].requisition.Some? && AnnouncedFor(w, w.retired[i].requisition.value, asked.material, asked.site))
  {
    hide Run, CallsFor, NoticesOK, RetiredOK, OneOpen, WorkerOK, RunsLow, AnnouncedFor;
    RunFromStart(es);
    var w := Run(Start, es);
    assert IntentOK(w, i);
    var more := DrainPlan(w, i);
    DrainPlanWorks(w, i);
    RunAppend(Start, es, more);
    var asked := w.intents[i];
    RunKeepsAsk(w, more, i, asked.material, asked.site, asked.snapshot);
    var end := Run(Start, es + more);
    RunFromStart(es + more);
    InOnePlace(end, i, asked.material, asked.site, asked.snapshot);
    RetiredOnlyWhenAnnounced(es + more, i);
    assert i in Run(Start, es + more).retired;
  }

  lemma {:induction false} RunAppend(w: World, es: seq<Event>, more: seq<Event>)
    ensures Run(w, es + more) == Run(Run(w, es), more)
    decreases |es|
  {
    if es == [] {
      assert es + more == more;
    } else {
      assert (es + more)[1..] == es[1..] + more;
      RunAppend(Step(w, es[0]), es[1..], more);
    }
  }

  ghost function Unused(s: set<nat>): (n: nat)
    ensures n !in s
    ensures forall m :: m in s ==> m < n
  {
    if s == {} then 0
    else
      var m :| m in s;
      var n := Unused(s - {m});
      assert s == (s - {m}) + {m};
      if m < n then n else m + 1
  }

  ghost function OpenOne(requisitions: map<RequisitionId, Requisition>, material: nat, site: nat): (r: RequisitionId)
    requires HasOpen(requisitions, material, site)
    ensures IsOpen(requisitions, r, material, site)
  {
    var r :| r in requisitions && IsOpen(requisitions, r, material, site);
    r
  }

  /** What is left to do for a worker that has read its intent. */
  ghost function Remaining(requisitions: map<RequisitionId, Requisition>, intent: Intent, o: Owner): seq<Event> {
    if intent.requisition.Some? then [Decide(o, None)] + [Settle(o)]
    else if !CallsFor(intent.snapshot) then [Decide(o, None)] + [Finish(o)]
    else if HasOpen(requisitions, intent.material, intent.site) then
      [Decide(o, Some(OpenOne(requisitions, intent.material, intent.site)))] + ([Attach(o)] + [Settle(o)])
    else [Decide(o, None)] + ([Create(o, Unused(requisitions.Keys))] + ([Attach(o)] + [Settle(o)]))
  }

  /** Wait out the lease, claim, read, then do it. */
  ghost function DrainPlan(w: World, i: IntentId): seq<Event>
    requires i in w.intents
  {
    var intent, o := w.intents[i], Unused(w.owners);
    var wait := if intent.lease.Some? then intent.lease.value.expires + 1 else 0;
    [Tick(wait)] + ([Claim(o, i)] + ([Read(o)] + Remaining(w.requisitions, intent, o)))
  }

  lemma RunOne(w: World, e: Event, es: seq<Event>)
    ensures Run(w, [e] + es) == Run(Step(w, e), es)
    ensures Run(w, [e]) == Step(w, e)
  {
    assert ([e] + es)[1..] == es;
  }

  /** Nobody interferes: the worker holds its lease and it has not run out. */
  ghost predicate Holding(w: World, o: Owner, i: IntentId) {
    HeldBy(w, i, o) && w.now < w.intents[i].lease.value.expires
  }

  lemma AttachAndSettle(w: World, o: Owner)
    requires o in w.workers && w.workers[o].Attaching? && Holding(w, o, w.workers[o].i)
    ensures w.workers[o].i in Run(w, [Attach(o)] + [Settle(o)]).retired
  {
    hide Run;
    RunOne(w, Attach(o), [Settle(o)]);
    var w1, i := Step(w, Attach(o)), w.workers[o].i;
    RunOne(w1, Settle(o), []);
    assert w1.workers[o].Settling? && w1.workers[o].i == i && Holding(w1, o, i);
  }

  lemma RemainingWorks(w: World, o: Owner)
    requires o in w.workers && w.workers[o].Deciding? && Holding(w, o, w.workers[o].i)
    ensures w.workers[o].i in Run(w, Remaining(w.requisitions, w.workers[o].copy, o)).retired
  {
    hide Run, CallsFor;
    var i, copy, plan := w.workers[o].i, w.workers[o].copy, Remaining(w.requisitions, w.workers[o].copy, o);
    if copy.requisition.Some? {
      RunOne(w, Decide(o, None), [Settle(o)]);
      RunOne(Step(w, Decide(o, None)), Settle(o), []);
    } else if !CallsFor(copy.snapshot) {
      RunOne(w, Decide(o, None), [Finish(o)]);
      RunOne(Step(w, Decide(o, None)), Finish(o), []);
    } else if HasOpen(w.requisitions, copy.material, copy.site) {
      RunOne(w, plan[0], [Attach(o)] + [Settle(o)]);
      AttachAndSettle(Step(w, plan[0]), o);
    } else {
      var r := Unused(w.requisitions.Keys);
      RunOne(w, plan[0], [Create(o, r)] + ([Attach(o)] + [Settle(o)]));
      var w1 := Step(w, plan[0]);
      RunOne(w1, Create(o, r), [Attach(o)] + [Settle(o)]);
      AttachAndSettle(Step(w1, Create(o, r)), o);
    }
  }

  lemma DrainPlanWorks(w: World, i: IntentId)
    requires i in w.intents
    ensures i in Run(w, DrainPlan(w, i)).retired
  {
    hide Run, Step, CallsFor, Delay, Remaining, Holding;
    var intent, o := w.intents[i], Unused(w.owners);
    var wait := if intent.lease.Some? then intent.lease.value.expires + 1 else 0;
    var rest := Remaining(w.requisitions, intent, o);
    var w1 := Step(w, Tick(wait));
    var w2 := Step(w1, Claim(o, i));
    var w3 := Step(w2, Read(o));
    RunOne(w, Tick(wait), [Claim(o, i)] + ([Read(o)] + rest));
    RunOne(w1, Claim(o, i), [Read(o)] + rest);
    RunOne(w2, Read(o), rest);
    ClaimsAndReads(w, i, o, wait);
    RemainingSame(w3.requisitions, w3.workers[o].copy, intent, o);
    RemainingWorks(w3, o);
  }

  lemma ClaimsAndReads(w: World, i: IntentId, o: Owner, wait: nat)
    requires i in w.intents && o !in w.owners && (w.intents[i].lease.Some? ==> wait == w.intents[i].lease.value.expires + 1)
    ensures var w3 := Step(Step(Step(w, Tick(wait)), Claim(o, i)), Read(o));
            && o in w3.workers && w3.workers[o].Deciding? && w3.workers[o].i == i && Holding(w3, o, i)
            && w3.requisitions == w.requisitions
            && SameAsk(w3.workers[o].copy, w.intents[i]) && w3.workers[o].copy.requisition == w.intents[i].requisition
  {
    hide CallsFor, Delay;
    var w1 := Step(w, Tick(wait));
    var w2 := Step(w1, Claim(o, i));
    assert w2.workers[o] == Claimed(i) && Holding(w2, o, i) && w2.requisitions == w.requisitions;
    assert w2.intents[i] == w.intents[i].(lease := w2.intents[i].lease);
    hide ClaimStep;
    assert Step(w2, Read(o)) == w2.(workers := w2.workers[o := Deciding(i, w2.intents[i])]);
  }

  lemma RemainingSame(requisitions: map<RequisitionId, Requisition>, a: Intent, b: Intent, o: Owner)
    requires SameAsk(a, b) && a.requisition == b.requisition
    ensures Remaining(requisitions, a, o) == Remaining(requisitions, b, o)
  {
  }
}
