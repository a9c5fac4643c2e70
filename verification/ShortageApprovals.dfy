/**
 Completing, cancelling and editing a ticket against the shortage approvals on
 it, statement by statement. The database runs at its default isolation: a
 statement reads what is committed, a written row stays locked until commit.
 */
module ShortageApprovals {
  import opened Wrappers
  import opened Numbers
  import opened InventoryLedger
  import opened BatchCompletion

  type TicketId = nat
  type RequestId = nat
  type TxId = nat

  datatype TicketStatus = Released | Batching | Complete | Cancelled
  datatype RequestStatus = Pending | Approved | Rejected | Consumed | Expired

  /** `masses`: what each tracked component weighs, in the unit of its store. */
  datatype Ticket = Ticket(status: TicketStatus, masses: map<MaterialId, real>)

  datatype Request = Request(ticket: TicketId, status: RequestStatus, snapshot: seq<Shortage>)

  /** What a committed completion leaves behind: its ledger posts, the shortages let through, the approval it used. */
  datatype Completion = Completion(posted: seq<Resolved>, shortages: seq<Shortage>, used: Option<RequestId>)

  datatype Db = Db(tickets: map<TicketId, Ticket>, requests: map<RequestId, Request>, completions: map<TicketId, Completion>)

  /** Where a transaction has got to; what it has read and written stays its own until it commits. */
  datatype Tx =
    | Begun(t: TicketId, goal: Goal)
    | Claimed(t: TicketId, goal: Goal)
    | SawRequest(t: TicketId, active: Option<RequestId>, approved: Option<seq<Shortage>>)
    | SawTicket(t: TicketId, active: Option<RequestId>, approved: Option<seq<Shortage>>, masses: map<MaterialId, real>)
    | PostedAll(t: TicketId, active: Option<RequestId>, approved: Option<seq<Shortage>>, done: Completion)
    | ResolvedRequest(t: TicketId, done: Completion, write: Option<RequestId>)
    | Expiring(t: TicketId, expired: set<RequestId>)
    | NoneActive(t: TicketId)
    | Inserting(t: TicketId, snapshot: seq<Shortage>)
    | Deciding(r: RequestId, approve: bool)
    | DecisionRead(r: RequestId, t: TicketId, approve: bool)
    | DecisionChecked(r: RequestId, approve: bool)

  datatype Goal = ToComplete | ToCancel | ToRequest | ToEdit(masses: map<MaterialId, real>, recording: bool)

  datatype State = State(db: Db, txs: map<TxId, Tx>)

  datatype Event =
    | Create(t: TicketId, masses: map<MaterialId, real>)
    | Begin(x: TxId, t: TicketId, goal: Goal)
    | BeginDecision(x: TxId, r: RequestId, approve: bool)
    | Claim(x: TxId)
    | ReadRequest(x: TxId, found: Option<RequestId>)
    | ReadTicket(x: TxId)
    | PostMovements(x: TxId, stock: Stock, order: seq<Resolved>)
    | ResolveRequest(x: TxId)
    | ExpireAll(x: TxId)
    | TakeSnapshot(x: TxId, stores: map<StorageId, Storage>, order: seq<Resolved>)
    | ReadDecided(x: TxId)
    | CheckTicket(x: TxId)
    | Decide(x: TxId)
    | Commit(x: TxId, r: RequestId)
    | Abort(x: TxId)

  predicate Terminal(status: TicketStatus) { status == Complete || status == Cancelled }

  predicate Active(status: RequestStatus) { status == Pending || status == Approved }

  /** The row lock on a ticket, taken by the claim and held to the end. */
  predicate HoldsTicket(tx: Tx, t: TicketId) {
    match tx
    case Begun(_, _) => false
    case Deciding(_, _) => false
    case DecisionRead(_, _, _) => false
    case DecisionChecked(_, _) => false
    case _ => tx.t == t
  }

  /** The row locks on requests: those written and not yet committed. */
  predicate HoldsRequest(tx: Tx, r: RequestId) {
    match tx
    case ResolvedRequest(_, _, write) => write == Some(r)
    case Expiring(_, expired) => r in expired
    case _ => false
  }

  predicate TicketFree(s: State, t: TicketId) {
    forall x :: x in s.txs ==> !HoldsTicket(s.txs[x], t)
  }

  predicate RequestFree(s: State, r: RequestId) {
    forall x :: x in s.txs ==> !HoldsRequest(s.txs[x], r)
  }

  ghost predicate ActiveFor(db: Db, t: TicketId, r: RequestId) {
    r in db.requests && db.requests[r].ticket == t && Active(db.requests[r].status)
  }

  function ActiveRequests(db: Db, t: TicketId): set<RequestId> {
    set r | r in db.requests && db.requests[r].ticket == t && Active(db.requests[r].status)
  }

  /** The components in posting order: each tracked material once, at its recorded mass. */
  predicate Resolves(order: seq<Resolved>, masses: map<MaterialId, real>) {
    && (forall i :: 0 <= i < |order| ==> order[i].materialId in masses && order[i].required == masses[order[i].materialId])
    && (forall i, j :: 0 <= i < j < |order| ==> order[i].materialId != order[j].materialId)
    && (forall m :: m in masses ==> exists i :: 0 <= i < |order| && order[i].materialId == m)
  }

  function Ended(s: State, x: TxId): State { s.(txs := s.txs - {x}) }

  function Went(s: State, x: TxId, tx: Tx): State { s.(txs := s.txs[x := tx]) }

  /** UPDATE ... WHERE status NOT IN (COMPLETE, CANCELLED), or SELECT ... FOR UPDATE: it waits for the row, then sees it as committed. */
  function ClaimStep(s: State, x: TxId): State
    requires x in s.txs && s.txs[x].Begun?
  {
    var t := s.txs[x].t;
    if !TicketFree(s, t) then s
    else if t !in s.db.tickets || Terminal(s.db.tickets[t].status) then Ended(s, x)
    else Went(s, x, Claimed(t, s.txs[x].goal))
  }

  /** findFirst over the ticket's PENDING or APPROVED requests. */
  predicate MayFind(db: Db, t: TicketId, found: Option<RequestId>) {
    match found
    case None => ActiveRequests(db, t) == {}
    case Some(r) => r in ActiveRequests(db, t)
  }

  function ReadRequestStep(s: State, x: TxId, found: Option<RequestId>): State
    requires x in s.txs && s.txs[x].Claimed? && MayFind(s.db, s.txs[x].t, found)
  {
    var t := s.txs[x].t;
    match s.txs[x].goal
    case ToComplete =>
      var approved := found.Some? && s.db.requests[found.value].status == Approved;
      Went(s, x, SawRequest(t, found, if approved then Some(s.db.requests[found.value].snapshot) else None))
    case ToRequest => if found.Some? then Ended(s, x) else Went(s, x, NoneActive(t))
    case _ => s
  }

  function Ceilings(approved: Option<seq<Shortage>>): map<MaterialId, real> {
    if approved.Some? then ApprovedCeilings(approved.value) else map[]
  }

  /** Every post of the completion, against the levels its row locks show. A refusal rolls the transaction back. */
  function PostStep(s: State, x: TxId, stock: Stock, order: seq<Resolved>): State
    requires x in s.txs && s.txs[x].SawTicket?
  {
    var tx := s.txs[x];
    if !Resolves(order, tx.masses) then s
    else
      match PostAll(stock, tx.t, order, Ceilings(tx.approved))
      case Refused(_) => Ended(s, x)
      case Completed(_, shortages) => Went(s, x, PostedAll(tx.t, tx.active, tx.approved, Completion(order, shortages, None)))
  }

  /** CONSUMED if the approval was needed, without looking again; EXPIRED otherwise, where the row is still active. */
  function ResolveStep(s: State, x: TxId): State
    requires x in s.txs && s.txs[x].PostedAll?
  {
    var tx := s.txs[x];
    match tx.active
    case None => Went(s, x, ResolvedRequest(tx.t, tx.done, None))
    case Some(r) =>
      if !RequestFree(s, r) then s
      else if tx.approved.Some? && tx.done.shortages != [] then
        Went(s, x, ResolvedRequest(tx.t, tx.done.(used := Some(r)), Some(r)))
      else if r in s.db.requests && Active(s.db.requests[r].status) then Went(s, x, ResolvedRequest(tx.t, tx.done, Some(r)))
      else Went(s, x, ResolvedRequest(tx.t, tx.done, None))
  }

  function ExpireStep(s: State, x: TxId): State
    requires x in s.txs && s.txs[x].Claimed? && s.txs[x].goal.ToCancel?
  {
    var t := s.txs[x].t;
    if exists r :: r in ActiveRequests(s.db, t) && !RequestFree(s, r) then s
    else Went(s, x, Expiring(t, ActiveRequests(s.db, t)))
  }

  function SnapshotStep(s: State, x: TxId, stores: map<StorageId, Storage>, order: seq<Resolved>): State
    requires x in s.txs && s.txs[x].NoneActive?
  {
    var t := s.txs[x].t;
    if t !in s.db.tickets || !Resolves(order, s.db.tickets[t].masses) then s
    else if !AllStored(stores, order) || DryRun(stores, order).entries == [] then Ended(s, x)
    else Went(s, x, Inserting(t, DryRun(stores, order).entries))
  }

  function SetStatus(db: Db, r: RequestId, status: RequestStatus): Db
    requires r in db.requests
  {
    db.(requests := db.requests[r := db.requests[r].(status := status)])
  }

  /** UPDATE ... WHERE status = PENDING, a transaction of its own. */
  function DecideStep(s: State, x: TxId): State
    requires x in s.txs && s.txs[x].DecisionChecked?
  {
    var r := s.txs[x].r;
    if !RequestFree(s, r) then s
    else if r !in s.db.requests || s.db.requests[r].status != Pending then Ended(s, x)
    else Ended(s.(db := SetStatus(s.db, r, if s.txs[x].approve then Approved else Rejected)), x)
  }

  /** The transaction's writes become everyone's; `newId` is the id an insert gets. */
  function Committed(db: Db, tx: Tx, newId: RequestId): Db
    requires !tx.Deciding? && !tx.DecisionChecked? && tx.t in db.tickets
  {
    var ticket := db.tickets[tx.t];
    match tx
    case ResolvedRequest(t, done, write) =>
      var db1 := db.(tickets := db.tickets[t := ticket.(status := Complete)], completions := db.completions[t := done]);
      if write.Some? && write.value in db.requests then
        SetStatus(db1, write.value, if done.used.Some? then Consumed else Expired)
      else db1
    case Expiring(t, expired) =>
      db.(tickets := db.tickets[t := ticket.(status := Cancelled)],
          requests := map r | r in db.requests :: if r in expired then db.requests[r].(status := Expired) else db.requests[r])
    case Inserting(t, snapshot) =>
      if newId in db.requests then db else db.(requests := db.requests[newId := Request(t, Pending, snapshot)])
    case Claimed(t, ToEdit(masses, recording)) =>
      db.(tickets := db.tickets[t := Ticket(if recording then Batching else ticket.status, masses)])
    case _ => db
  }

  /** Steps are taken only in program order; a step whose turn it is not, or that would wait for a lock, changes nothing. */
  function Step(s: State, e: Event): State
    requires Enabled(s, e)
  {
    match e
    case Create(t, masses) => if t in s.db.tickets then s else s.(db := s.db.(tickets := s.db.tickets[t := Ticket(Released, masses)]))
    case Begin(x, t, goal) => if x in s.txs then s else Went(s, x, Begun(t, goal))
    case BeginDecision(x, r, approve) => if x in s.txs then s else Went(s, x, Deciding(r, approve))
    case Claim(x) => if x in s.txs && s.txs[x].Begun? then ClaimStep(s, x) else s
    case ReadRequest(x, found) =>
      if x in s.txs && s.txs[x].Claimed? && MayFind(s.db, s.txs[x].t, found) then ReadRequestStep(s, x, found) else s
    case ReadTicket(x) =>
      if x in s.txs && s.txs[x].SawRequest? && s.txs[x].t in s.db.tickets then
        Went(s, x, SawTicket(s.txs[x].t, s.txs[x].active, s.txs[x].approved, s.db.tickets[s.txs[x].t].masses))
      else s
    case PostMovements(x, stock, order) => if x in s.txs && s.txs[x].SawTicket? then PostStep(s, x, stock, order) else s
    case ResolveRequest(x) => if x in s.txs && s.txs[x].PostedAll? then ResolveStep(s, x) else s
    case ExpireAll(x) => if x in s.txs && s.txs[x].Claimed? && s.txs[x].goal.ToCancel? then ExpireStep(s, x) else s
    case TakeSnapshot(x, stores, order) => if x in s.txs && s.txs[x].NoneActive? then SnapshotStep(s, x, stores, order) else s
    case ReadDecided(x) =>
      if x in s.txs && s.txs[x].Deciding? then
        if s.txs[x].r !in s.db.requests then Ended(s, x)
        else Went(s, x, DecisionRead(s.txs[x].r, s.db.requests[s.txs[x].r].ticket, s.txs[x].approve))
      else s
    case CheckTicket(x) =>
      if x in s.txs && s.txs[x].DecisionRead? then
        if s.txs[x].t in s.db.tickets && Terminal(s.db.tickets[s.txs[x].t].status) then Ended(s, x)
        else Went(s, x, DecisionChecked(s.txs[x].r, s.txs[x].approve))
      else s
    case Decide(x) => if x in s.txs && s.txs[x].DecisionChecked? then DecideStep(s, x) else s
    case Commit(x, newId) =>
      if x in s.txs && ReadyToCommit(s, x) then Ended(s.(db := Committed(s.db, s.txs[x], newId)), x) else s
    case Abort(x) => Ended(s, x)
  }

  predicate ReadyToCommit(s: State, x: TxId)
    requires x in s.txs
  {
    match s.txs[x]
    case ResolvedRequest(t, _, _) => t in s.db.tickets
    case Expiring(t, _) => t in s.db.tickets
    case Inserting(t, _) => t in s.db.tickets
    case Claimed(t, ToEdit(_, _)) => t in s.db.tickets
    case _ => false
  }

  /** The ledger holds a ticket's completion rows only once that completion has committed. */
  predicate LedgerOf(db: Db, stock: Stock) {
    forall i :: 0 <= i < |stock.rows| && stock.rows[i].key.source == FromTicket && stock.rows[i].key.movement == BatchCompletion
                ==> stock.rows[i].key.sourceId in db.completions
  }

  predicate Enabled(s: State, e: Event) {
    match e
    case PostMovements(x, stock, _) =>
      x in s.txs && s.txs[x].SawTicket? ==> LedgerOf(s.db, stock)
    case _ => true
  }

  // ---- The invariant -------------------------------------------------------------------

  /** Every shortage let through is real, and within what its material was approved for. */
  predicate WithinCeilings(shortages: seq<Shortage>, approved: Option<seq<Shortage>>) {
    forall i :: 0 <= i < |shortages| ==>
      && EPSILON < shortages[i].amount
      && shortages[i].amount <= Max(0.0, Ceiling(Ceilings(approved), shortages[i].materialId)) + EPSILON
  }

  ghost predicate CompletionOK(db: Db, t: TicketId, done: Completion) {
    && t in db.tickets && Resolves(done.posted, db.tickets[t].masses)
    && (done.used == None <==> done.shortages == [])
    && (done.used.Some? ==>
          && done.used.value in db.requests && db.requests[done.used.value].ticket == t
          && WithinCeilings(done.shortages, Some(db.requests[done.used.value].snapshot)))
  }

  /** All that is committed about one ticket. */
  ghost predicate TicketOK(db: Db, t: TicketId) {
    && (t in db.tickets && Terminal(db.tickets[t].status) ==> forall r: RequestId :: !ActiveFor(db, t, r))
    && (forall r: RequestId, r': RequestId :: ActiveFor(db, t, r) && ActiveFor(db, t, r') ==> r == r')
    && (t in db.completions <==> t in db.tickets && db.tickets[t].status == Complete)
    && (t in db.completions ==> CompletionOK(db, t, db.completions[t]))
    && (forall r: RequestId :: r in db.requests && db.requests[r].ticket == t ==>
          && t in db.tickets
          && (db.requests[r].status == Consumed <==> t in db.completions && db.completions[t].used == Some(r)))
  }

  /** What the completing transaction read of the request still holds, but for a decision taken on it meanwhile. */
  ghost predicate StillSeen(db: Db, t: TicketId, active: Option<RequestId>, approved: Option<seq<Shortage>>) {
    && (forall r: RequestId :: ActiveFor(db, t, r) ==> active == Some(r))
    && (active.Some? ==>
          && active.value in db.requests && db.requests[active.value].ticket == t
          && (approved.Some? ==>
                db.requests[active.value].status == Approved && db.requests[active.value].snapshot == approved.value))
    && (active.None? ==> approved.None?)
  }

  ghost predicate TxOK(db: Db, tx: Tx) {
    match tx
    case SawRequest(t, active, approved) => StillSeen(db, t, active, approved)
    case SawTicket(t, active, approved, masses) =>
      StillSeen(db, t, active, approved) && t in db.tickets && db.tickets[t].masses == masses
    case PostedAll(t, active, approved, done) =>
      && StillSeen(db, t, active, approved) && t in db.tickets && Resolves(done.posted, db.tickets[t].masses)
      && done.used == None && WithinCeilings(done.shortages, approved)
    case ResolvedRequest(t, done, write) =>
      && CompletionOK(db, t, done)
      && (forall r: RequestId :: ActiveFor(db, t, r) <==> write == Some(r))
      && (done.used.Some? ==> done.used == write)
    case Expiring(t, expired) => forall r: RequestId :: ActiveFor(db, t, r) <==> r in expired
    case NoneActive(t) => forall r: RequestId :: !ActiveFor(db, t, r)
    case Inserting(t, _) => forall r: RequestId :: !ActiveFor(db, t, r)
    case _ => true
  }

  ghost predicate LocksOK(s: State) {
    && (forall x: TxId, t: TicketId :: x in s.txs && HoldsTicket(s.txs[x], t) ==> t in s.db.tickets && !Terminal(s.db.tickets[t].status))
    && (forall x: TxId, y: TxId, t: TicketId :: x in s.txs && y in s.txs && HoldsTicket(s.txs[x], t) && HoldsTicket(s.txs[y], t) ==> x == y)
  }

  ghost predicate Inv(s: State) {
    && (forall t: TicketId :: TicketOK(s.db, t))
    && LocksOK(s)
    && (forall x :: x in s.txs ==> TxOK(s.db, s.txs[x]))
  }

  // ---- Frames ---------------------------------------------------------------------------

  /** Everything committed about ticket t is the same. */
  ghost predicate SameFor(db: Db, db': Db, t: TicketId) {
    && (t in db.tickets <==> t in db'.tickets) && (t in db.tickets ==> db'.tickets[t] == db.tickets[t])
    && (t in db.completions <==> t in db'.completions) && (t in db.completions ==> db'.completions[t] == db.completions[t])
    && (forall r: RequestId :: r in db.requests && db.requests[r].ticket == t ==> r in db'.requests && db'.requests[r] == db.requests[r])
    && (forall r: RequestId :: r in db'.requests && db'.requests[r].ticket == t ==> r in db.requests && db'.requests[r] == db.requests[r])
  }

  lemma ActiveSame(db: Db, db': Db, t: TicketId)
    requires SameFor(db, db', t)
    ensures forall r: RequestId :: ActiveFor(db, t, r) <==> ActiveFor(db', t, r)
  {}

  lemma TicketFrame(db: Db, db': Db, t: TicketId)
    requires SameFor(db, db', t) && TicketOK(db, t)
    ensures TicketOK(db', t)
  {
    hide Resolves, WithinCeilings;
    ActiveSame(db, db', t);
  }

  lemma TxFrame(db: Db, db': Db, tx: Tx)
    requires TxOK(db, tx)
    requires forall t: TicketId :: HoldsTicket(tx, t) ==> SameFor(db, db', t)
    ensures TxOK(db', tx)
  {
    hide Resolves, WithinCeilings;
    if !tx.Deciding? && !tx.DecisionChecked? && HoldsTicket(tx, tx.t) { ActiveSame(db, db', tx.t); }
  }

  // ---- Every step keeps the invariant ------------------------------------------------------

  lemma WentKeeps(s: State, x: TxId, tx: Tx)
    requires Inv(s) && TxOK(s.db, tx)
    requires forall t: TicketId :: HoldsTicket(tx, t) ==>
               || (x in s.txs && HoldsTicket(s.txs[x], t))
               || (TicketFree(s, t) && t in s.db.tickets && !Terminal(s.db.tickets[t].status))
    ensures Inv(Went(s, x, tx))
  {
    hide TicketOK, TxOK;
  }

  lemma EndedKeeps(s: State, x: TxId)
    requires Inv(s)
    ensures Inv(Ended(s, x))
  {
    hide TicketOK, TxOK;
  }

  /** Whatever levels the store rows show, what is let through is real and covered; nothing is, without an approval. */
  lemma {:induction false} PostAllWithinCeilings(stock: Stock, t: nat, order: seq<Resolved>, approved: Option<seq<Shortage>>)
    ensures var run := PostAll(stock, t, order, Ceilings(approved)); run.Completed? ==> WithinCeilings(run.shortages, approved)
  {
    if order != [] { PostAllWithinCeilings(stock, t, order[..|order| - 1], approved); }
  }

  lemma NoApprovalNoShortage(shortages: seq<Shortage>)
    ensures WithinCeilings(shortages, None) <==> shortages == []
  {
    if shortages != [] { assert Max(0.0, Ceiling(Ceilings(None), shortages[0].materialId)) == 0.0; }
  }

  lemma ResolveKeeps(s: State, x: TxId)
    requires Inv(s) && x in s.txs && s.txs[x].PostedAll?
    ensures Inv(ResolveStep(s, x))
  {
    hide TicketOK, WithinCeilings, Resolves;
    var tx := s.txs[x];
    assert TxOK(s.db, tx);
    if tx.approved.None? { NoApprovalNoShortage(tx.done.shortages); }
    var s' := ResolveStep(s, x);
    if s' != s {
      assert HoldsTicket(tx, tx.t) && tx.t in s.db.tickets;
      WentKeeps(s, x, s'.txs[x]);
    }
  }

  lemma CommitKeeps(s: State, x: TxId, newId: RequestId)
    requires Inv(s) && x in s.txs && ReadyToCommit(s, x)
    ensures Inv(Ended(s.(db := Committed(s.db, s.txs[x], newId)), x))
  {
    hide TicketOK, TxOK;
    var tx := s.txs[x];
    var db' := Committed(s.db, tx, newId);
    OwnTicketCommitted(s, x, newId);
    forall t: TicketId ensures TicketOK(db', t) {
      if t != tx.t { OthersUntouched(s.db, tx, newId, t); TicketFrame(s.db, db', t); }
    }
    var s' := Ended(s.(db := db'), x);
    forall y | y in s'.txs ensures TxOK(db', s'.txs[y]) {
      forall t: TicketId | HoldsTicket(s.txs[y], t) ensures SameFor(s.db, db', t) {
        assert HoldsTicket(tx, tx.t);
        OthersUntouched(s.db, tx, newId, t);
      }
      TxFrame(s.db, db', s.txs[y]);
    }
    forall y: TxId, t: TicketId | y in s'.txs && HoldsTicket(s'.txs[y], t) ensures t in db'.tickets && !Terminal(db'.tickets[t].status) {
      assert HoldsTicket(tx, tx.t) && HoldsTicket(s.txs[y], t);
      OthersUntouched(s.db, tx, newId, t);
    }
  }

  lemma OthersUntouched(db: Db, tx: Tx, newId: RequestId, t: TicketId)
    requires !tx.Deciding? && !tx.DecisionChecked? && tx.t in db.tickets && t != tx.t && TxOK(db, tx)
    ensures SameFor(db, Committed(db, tx, newId), t)
  {
    hide CompletionOK;
    if tx.Expiring? {
      forall r: RequestId | r in tx.expired ensures ActiveFor(db, tx.t, r) {}
    }
    if tx.ResolvedRequest? && tx.write.Some? { assert ActiveFor(db, tx.t, tx.write.value); }
  }

  lemma OwnTicketCommitted(s: State, x: TxId, newId: RequestId)
    requires Inv(s) && x in s.txs && ReadyToCommit(s, x)
    ensures TicketOK(Committed(s.db, s.txs[x], newId), s.txs[x].t)
  {
    hide WithinCeilings, Resolves;
    var tx := s.txs[x];
    var db, db', t := s.db, Committed(s.db, tx, newId), tx.t;
    assert TxOK(db, tx) && TicketOK(db, t) && HoldsTicket(tx, t);
    assert !Terminal(db.tickets[t].status) && t !in db.completions;
    assert forall r: RequestId :: r in db.requests && db.requests[r].ticket == t ==> db.requests[r].status != Consumed;
    match tx
    case ResolvedRequest(_, done, write) =>
      assert CompletionOK(db', t, done);
      assert forall r: RequestId :: ActiveFor(db', t, r) ==> ActiveFor(db, t, r) && write != Some(r);
    case Expiring(_, expired) =>
      assert forall r: RequestId :: ActiveFor(db', t, r) ==> ActiveFor(db, t, r) && r !in expired;
    case Inserting(_, _) =>
      assert forall r: RequestId :: ActiveFor(db', t, r) ==> ActiveFor(db, t, r) || r == newId;
    case Claimed(_, _) =>
      assert forall r: RequestId :: ActiveFor(db', t, r) <==> ActiveFor(db, t, r);
  }

  lemma DecideKeeps(s: State, x: TxId)
    requires Inv(s) && x in s.txs && s.txs[x].DecisionChecked?
    ensures Inv(DecideStep(s, x))
  {
    var r := s.txs[x].r;
    var s' := DecideStep(s, x);
    if RequestFree(s, r) && r in s.db.requests && s.db.requests[r].status == Pending {
      forall t: TicketId ensures TicketOK(s'.db, t) { DecisionKeepsTicket(s.db, r, s.txs[x].approve, t); }
      forall y | y in s'.txs ensures TxOK(s'.db, s'.txs[y]) { DecisionKeepsTx(s, r, s.txs[x].approve, y); }
      hide TicketOK, TxOK;
      assert LocksOK(s');
    } else {
      EndedKeeps(s, x);
    }
  }

  function Decided(db: Db, r: RequestId, approve: bool): Db
    requires r in db.requests
  {
    SetStatus(db, r, if approve then Approved else Rejected)
  }

  lemma DecisionKeepsTicket(db: Db, r: RequestId, approve: bool, t: TicketId)
    requires r in db.requests && db.requests[r].status == Pending && TicketOK(db, t)
    ensures TicketOK(Decided(db, r, approve), t)
  {
    hide Resolves, WithinCeilings;
    assert forall q: RequestId :: ActiveFor(Decided(db, r, approve), t, q) ==> ActiveFor(db, t, q);
  }

  lemma DecisionKeepsTx(s: State, r: RequestId, approve: bool, y: TxId)
    requires Inv(s) && r in s.db.requests && s.db.requests[r].status == Pending && RequestFree(s, r) && y in s.txs
    ensures TxOK(Decided(s.db, r, approve), s.txs[y])
  {
    hide Resolves, WithinCeilings, TicketOK;
    var db' := Decided(s.db, r, approve);
    assert forall t: TicketId, q: RequestId :: ActiveFor(db', t, q) ==> ActiveFor(s.db, t, q);
    assert forall t: TicketId, q: RequestId :: q != r && ActiveFor(s.db, t, q) ==> ActiveFor(db', t, q);
    assert TxOK(s.db, s.txs[y]) && !HoldsRequest(s.txs[y], r);
  }

  lemma ReadKeeps(s: State, x: TxId, found: Option<RequestId>)
    requires Inv(s) && x in s.txs && s.txs[x].Claimed? && MayFind(s.db, s.txs[x].t, found)
    ensures Inv(ReadRequestStep(s, x, found))
  {
    hide CompletionOK;
    var s', t := ReadRequestStep(s, x, found), s.txs[x].t;
    assert TicketOK(s.db, t) && HoldsTicket(s.txs[x], t);
    assert forall r: RequestId :: ActiveFor(s.db, t, r) <==> r in ActiveRequests(s.db, t);
    if s' != s { if x in s'.txs { WentKeeps(s, x, s'.txs[x]); } else { EndedKeeps(s, x); } }
  }

  lemma PostKeeps(s: State, x: TxId, stock: Stock, order: seq<Resolved>)
    requires Inv(s) && x in s.txs && s.txs[x].SawTicket?
    ensures Inv(PostStep(s, x, stock, order))
  {
    hide TicketOK, WithinCeilings, PostAll, Resolves;
    var tx, s' := s.txs[x], PostStep(s, x, stock, order);
    PostAllWithinCeilings(stock, tx.t, order, tx.approved);
    assert TxOK(s.db, tx) && HoldsTicket(tx, tx.t);
    if s' != s { if x in s'.txs { WentKeeps(s, x, s'.txs[x]); } else { EndedKeeps(s, x); } }
  }

  lemma ExpireKeeps(s: State, x: TxId)
    requires Inv(s) && x in s.txs && s.txs[x].Claimed? && s.txs[x].goal.ToCancel?
    ensures Inv(ExpireStep(s, x))
  {
    hide TicketOK;
    var s', t := ExpireStep(s, x), s.txs[x].t;
    assert HoldsTicket(s.txs[x], t);
    assert forall r: RequestId :: ActiveFor(s.db, t, r) <==> r in ActiveRequests(s.db, t);
    if s' != s { WentKeeps(s, x, s'.txs[x]); }
  }

  lemma SnapshotKeeps(s: State, x: TxId, stores: map<StorageId, Storage>, order: seq<Resolved>)
    requires Inv(s) && x in s.txs && s.txs[x].NoneActive?
    ensures Inv(SnapshotStep(s, x, stores, order))
  {
    hide TicketOK, DryRun, Resolves, ActiveFor;
    var s', t := SnapshotStep(s, x, stores, order), s.txs[x].t;
    assert TxOK(s.db, s.txs[x]) && HoldsTicket(s.txs[x], t);
    if s' != s { if x in s'.txs { WentKeeps(s, x, s'.txs[x]); } else { EndedKeeps(s, x); } }
  }

  lemma CreateKeeps(s: State, t: TicketId, masses: map<MaterialId, real>)
    requires Inv(s) && t !in s.db.tickets
    ensures Inv(s.(db := s.db.(tickets := s.db.tickets[t := Ticket(Released, masses)])))
  {
    var db' := s.db.(tickets := s.db.tickets[t := Ticket(Released, masses)]);
    assert TicketOK(s.db, t);
    forall u: TicketId ensures TicketOK(db', u) { if u != t { TicketFrame(s.db, db', u); } }
    forall y | y in s.txs ensures TxOK(db', s.txs[y]) {
      TxFrame(s.db, db', s.txs[y]);
    }
  }

  lemma StepKeeps(s: State, e: Event)
    requires Inv(s) && Enabled(s, e)
    ensures Inv(Step(s, e))
  {
    hide TicketOK, Resolves, ReadRequestStep, PostStep, ResolveStep, ExpireStep, SnapshotStep, DecideStep, Committed;
    match e
    case Create(t, masses) => if t !in s.db.tickets { CreateKeeps(s, t, masses); }
    case Begin(x, t, goal) => if x !in s.txs { WentKeeps(s, x, Begun(t, goal)); }
    case BeginDecision(x, r, approve) => if x !in s.txs { WentKeeps(s, x, Deciding(r, approve)); }
    case Claim(x) => if x in s.txs && s.txs[x].Begun? { ClaimKeeps(s, x); }
    case ReadRequest(x, found) => if x in s.txs && s.txs[x].Claimed? && MayFind(s.db, s.txs[x].t, found) { ReadKeeps(s, x, found); }
    case ReadTicket(x) => ReadOnlyKeeps(s, e);
    case PostMovements(x, stock, order) => if x in s.txs && s.txs[x].SawTicket? { PostKeeps(s, x, stock, order); }
    case ResolveRequest(x) => if x in s.txs && s.txs[x].PostedAll? { ResolveKeeps(s, x); }
    case ExpireAll(x) => if x in s.txs && s.txs[x].Claimed? && s.txs[x].goal.ToCancel? { ExpireKeeps(s, x); }
    case TakeSnapshot(x, stores, order) => if x in s.txs && s.txs[x].NoneActive? { SnapshotKeeps(s, x, stores, order); }
    case ReadDecided(x) => ReadOnlyKeeps(s, e);
    case CheckTicket(x) => ReadOnlyKeeps(s, e);
    case Decide(x) => if x in s.txs && s.txs[x].DecisionChecked? { DecideKeeps(s, x); }
    case Commit(x, newId) => if x in s.txs && ReadyToCommit(s, x) { CommitKeeps(s, x, newId); }
    case Abort(x) => EndedKeeps(s, x);
  }

  lemma ClaimKeeps(s: State, x: TxId)
    requires Inv(s) && x in s.txs && s.txs[x].Begun?
    ensures Inv(ClaimStep(s, x))
  {
    hide TicketOK;
    var s' := ClaimStep(s, x);
    if s' != s { if x in s'.txs { WentKeeps(s, x, s'.txs[x]); } else { EndedKeeps(s, x); } }
  }

  lemma ReadOnlyKeeps(s: State, e: Event)
    requires Inv(s) && (e.ReadTicket? || e.ReadDecided? || e.CheckTicket?)
    ensures Inv(Step(s, e))
  {
    hide TicketOK;
    var s', x := Step(s, e), e.x;
    if s' != s {
      assert TxOK(s.db, s.txs[x]);
      if x in s'.txs { WentKeeps(s, x, s'.txs[x]); } else { EndedKeeps(s, x); }
    }
  }

  // ---- Main results -------------------------------------------------------------------------

  ghost predicate EnabledRun(s: State, es: seq<Event>)
    decreases |es|
  {
    es != [] ==> Enabled(s, es[0]) && EnabledRun(Step(s, es[0]), es[1..])
  }

  function Run(s: State, es: seq<Event>): State
    requires EnabledRun(s, es)
    decreases |es|
  {
    if es == [] then s else Run(Step(s, es[0]), es[1..])
  }

  const Start: State := State(Db(map[], map[], map[]), map[])

  lemma {:induction false} RunKeeps(s: State, es: seq<Event>)
    requires Inv(s) && EnabledRun(s, es)
    ensures Inv(Run(s, es))
    decreases |es|
  {
    if es != [] {
      StepKeeps(s, es[0]);
      RunKeeps(Step(s, es[0]), es[1..]);
    }
  }

  /** In every committed state: no finished ticket has a request still open, and no ticket ever has two. */
  lemma NoOpenRequestOnFinishedTicket(es: seq<Event>, t: TicketId)
    requires EnabledRun(Start, es)
    ensures var db := Run(Start, es).db;
            && (t in db.tickets && Terminal(db.tickets[t].status) ==> ActiveRequests(db, t) == {})
            && (forall r: RequestId, r': RequestId :: r in ActiveRequests(db, t) && r' in ActiveRequests(db, t) ==> r == r')
  {
    RunKeeps(Start, es);
    var db := Run(Start, es).db;
    assert TicketOK(db, t);
    assert forall r: RequestId :: r in ActiveRequests(db, t) <==> ActiveFor(db, t, r);
  }

  /**
   A request is CONSUMED exactly by the one completion that used it. That
   completion had a real shortage, none of it beyond what was approved; and a
   completion let a shortage through only against such a request. Every
   completed ticket was posted at the masses it has kept since.
   */
  lemma ConsumedExactlyByShortage(es: seq<Event>, t: TicketId)
    requires EnabledRun(Start, es)
    ensures var db := Run(Start, es).db;
            && (t in db.completions <==> t in db.tickets && db.tickets[t].status == Complete)
            && (t in db.completions ==>
                  && Resolves(db.completions[t].posted, db.tickets[t].masses)
                  && (db.completions[t].shortages != [] <==> db.completions[t].used.Some?)
                  && (db.completions[t].used.Some? ==>
                        && var r := db.completions[t].used.value;
                        && r in db.requests && db.requests[r].ticket == t && db.requests[r].status == Consumed
                        && WithinCeilings(db.completions[t].shortages, Some(db.requests[r].snapshot))))
            && (forall r: RequestId :: r in db.requests && db.requests[r].ticket == t && db.requests[r].status == Consumed ==>
                  t in db.completions && db.completions[t].used == Some(r))
  {
    hide WithinCeilings, Resolves;
    RunKeeps(Start, es);
    assert TicketOK(Run(Start, es).db, t);
  }

  /** The snapshot's last word on a material covers this shortfall, or there is next to none. */
  predicate CoveredBy(snapshot: seq<Shortage>, m: MaterialId, short: real) {
    || short <= EPSILON
    || exists k :: 0 <= k < |snapshot| && snapshot[k].materialId == m && short <= snapshot[k].amount + EPSILON
                   && forall j :: k < j < |snapshot| ==> snapshot[j].materialId != m
  }

  lemma {:induction false} CeilingCovers(snapshot: seq<Shortage>, m: MaterialId, short: real)
    ensures CoveredBy(snapshot, m, short) <==> short <= Max(0.0, Ceiling(ApprovedCeilings(snapshot), m)) + EPSILON
  {
    if snapshot != [] {
      var n := |snapshot| - 1;
      var before := snapshot[..n];
      CeilingCovers(before, m, short);
      if snapshot[n].materialId == m {
        assert short <= snapshot[n].amount + EPSILON ==> CoveredBy(snapshot, m, short);
      } else {
        if CoveredBy(before, m, short) && short > EPSILON {
          var k :| 0 <= k < |before| && before[k].materialId == m && short <= before[k].amount + EPSILON
                   && forall j :: k < j < |before| ==> before[j].materialId != m;
          assert snapshot[k] == before[k];
        }
        if CoveredBy(snapshot, m, short) && short > EPSILON {
          var k :| 0 <= k < |snapshot| && snapshot[k].materialId == m && short <= snapshot[k].amount + EPSILON
                   && forall j :: k < j < |snapshot| ==> snapshot[j].materialId != m;
          assert before[k] == snapshot[k];
        }
      }
    }
  }

  /** What a completion does from its claim on, nobody stepping in between. */
  function Finishing(x: TxId, found: Option<RequestId>, stock: Stock, order: seq<Resolved>, newId: RequestId): seq<Event> {
    [ReadRequest(x, found)] + ([ReadTicket(x)] + ([PostMovements(x, stock, order)] + ([ResolveRequest(x)] + [Commit(x, newId)])))
  }

  /** What the rows of the ticket's stores show when they are locked: within bounds, one store per component. */
  ghost predicate Lockable(db: Db, t: TicketId, stock: Stock, order: seq<Resolved>) {
    && t in db.tickets && Resolves(order, db.tickets[t].masses) && AllInBounds(stock) && AllStored(stock.stores, order)
    && LedgerOf(db, stock) && forall i :: 0 <= i < |order| ==> 0.0 <= order[i].required
  }

  /** Each shortfall, worked out from levels and masses alone, is next to nothing or within the approval found. */
  ghost predicate Coverable(db: Db, found: Option<RequestId>, stock: Stock, order: seq<Resolved>)
    requires AllStored(stock.stores, order)
  {
    forall i :: 0 <= i < |order| ==>
      || ShortAt(stock.stores, order, i) <= EPSILON
      || (found.Some? && found.value in db.requests && db.requests[found.value].status == Approved
          && CoveredBy(db.requests[found.value].snapshot, order[i].materialId, ShortAt(stock.stores, order, i)))
  }

  lemma {:induction false} PostsExactlyWhenCoverable(db: Db, t: TicketId, found: Option<RequestId>, stock: Stock, order: seq<Resolved>)
    requires Lockable(db, t, stock, order) && t !in db.completions && (found.Some? ==> found.value in db.requests)
    ensures var approved := if found.Some? && db.requests[found.value].status == Approved then Some(db.requests[found.value].snapshot) else None;
            var run := PostAll(stock, t, order, Ceilings(approved));
            && (run.Completed? <==> Coverable(db, found, stock, order))
            && (run.Completed? ==> run.shortages == Shorts(stock.stores, order, |order|))
  {
    hide PostAll, ShortAt, Shorts, ApprovedCeilings, CoveredBy;
    var approved := if found.Some? && db.requests[found.value].status == Approved then Some(db.requests[found.value].snapshot) else None;
    assert order[..|order|] == order;
    assert Completable(stock, t, order);
    PostAllClosed(stock, t, order, Ceilings(approved), |order|);
    forall i | 0 <= i < |order|
      ensures Covered(stock.stores, order, Ceilings(approved), i) <==>
                || ShortAt(stock.stores, order, i) <= EPSILON
                || (approved.Some? && CoveredBy(approved.value, order[i].materialId, ShortAt(stock.stores, order, i)))
    {
      if approved.Some? {
        CeilingCovers(approved.value, order[i].materialId, ShortAt(stock.stores, order, i));
        if ShortAt(stock.stores, order, i) <= EPSILON { SmallIsCovered(approved.value, order[i].materialId, ShortAt(stock.stores, order, i)); }
      }
    }
  }

  lemma SmallIsCovered(snapshot: seq<Shortage>, m: MaterialId, short: real)
    requires short <= EPSILON
    ensures CoveredBy(snapshot, m, short)
  {}

  /** Who holds a ticket is the only one that can have written a request on it. */
  lemma NobodyElseHolds(s: State, x: TxId, t: TicketId, r: RequestId)
    requires Inv(s) && x in s.txs && HoldsTicket(s.txs[x], t) && !HoldsRequest(s.txs[x], r)
    requires r in s.db.requests && s.db.requests[r].ticket == t
    ensures RequestFree(s, r)
  {
    hide TicketOK, CompletionOK, WithinCeilings;
    forall y | y in s.txs ensures !HoldsRequest(s.txs[y], r) {
      assert TxOK(s.db, s.txs[y]);
      assert HoldsRequest(s.txs[y], r) ==> ActiveFor(s.db, s.txs[y].t, r) && HoldsTicket(s.txs[y], s.txs[y].t);
    }
  }

  lemma RunsOne(s: State, e: Event, es: seq<Event>)
    requires Enabled(s, e) && EnabledRun(Step(s, e), es)
    ensures EnabledRun(s, [e] + es) && Run(s, [e] + es) == Run(Step(s, e), es)
  {
    assert ([e] + es)[1..] == es;
    hide Enabled, Step;
  }

  lemma {:induction false} FinishingRuns(s: State, x: TxId, found: Option<RequestId>, stock: Stock, order: seq<Resolved>, newId: RequestId)
    requires LedgerOf(s.db, stock)
    ensures EnabledRun(s, Finishing(x, found, stock, order, newId))
    ensures var s2 := Step(Step(s, ReadRequest(x, found)), ReadTicket(x));
            Enabled(s2, PostMovements(x, stock, order))
            && Run(s, Finishing(x, found, stock, order, newId))
               == Step(Step(Step(s2, PostMovements(x, stock, order)), ResolveRequest(x)), Commit(x, newId))
  {
    OnlyTheseWrite(s, ReadRequest(x, found));
    var s1 := Step(s, ReadRequest(x, found));
    OnlyTheseWrite(s1, ReadTicket(x));
    var s2 := Step(s1, ReadTicket(x));
    assert s2.db == s.db && Enabled(s2, PostMovements(x, stock, order));
    var s3 := Step(s2, PostMovements(x, stock, order));
    var s4 := Step(s3, ResolveRequest(x));
    hide Step, LedgerOf;
    assert EnabledRun(Step(s4, Commit(x, newId)), []) && Run(Step(s4, Commit(x, newId)), []) == Step(s4, Commit(x, newId));
    RunsOne(s4, Commit(x, newId), []);
    assert [Commit(x, newId)] + [] == [Commit(x, newId)];
    RunsOne(s3, ResolveRequest(x), [Commit(x, newId)]);
    RunsOne(s2, PostMovements(x, stock, order), [ResolveRequest(x)] + [Commit(x, newId)]);
    RunsOne(s1, ReadTicket(x), [PostMovements(x, stock, order)] + ([ResolveRequest(x)] + [Commit(x, newId)]));
    RunsOne(s, ReadRequest(x, found), [ReadTicket(x)] + ([PostMovements(x, stock, order)] + ([ResolveRequest(x)] + [Commit(x, newId)])));
  }

  /** A shortfall that took an approval. */
  ghost predicate RealShortage(stock: Stock, order: seq<Resolved>)
    requires AllStored(stock.stores, order)
  {
    exists i :: 0 <= i < |order| && EPSILON < ShortAt(stock.stores, order, i)
  }

  /** What is committed afterwards: the ticket completed if it could be covered, and its request settled; else nothing. */
  ghost predicate CompletedIfCovered(db: Db, db': Db, t: TicketId, found: Option<RequestId>, stock: Stock, order: seq<Resolved>)
    requires AllStored(stock.stores, order)
  {
    if Coverable(db, found, stock, order) then
      && t in db'.tickets && db'.tickets[t].status == Complete
      && t in db'.completions && db'.completions[t].posted == order
      && db'.completions[t].shortages == Shorts(stock.stores, order, |order|)
      && (found.Some? ==> found.value in db'.requests)
      && (found.Some? ==> db'.requests[found.value].status == if RealShortage(stock, order) then Consumed else Expired)
    else db' == db
  }

  /**
   An approval does what it is for. In any reachable state, let a completion hold
   its ticket, not yet complete, and find the ticket's open request, if it has one.
   Left alone, it completes the ticket exactly when every shortfall is next to
   nothing or within an approved request's amount for the material; a needed
   approval ends CONSUMED, any other open request EXPIRED. Otherwise it commits nothing.
   */
  lemma {:induction false} CompletesExactlyWhenCovered(before: seq<Event>, x: TxId, found: Option<RequestId>, stock: Stock, order: seq<Resolved>, newId: RequestId)
    requires EnabledRun(Start, before)
    requires var s := Run(Start, before);
             && x in s.txs && s.txs[x].Claimed? && s.txs[x].goal.ToComplete?
             && MayFind(s.db, s.txs[x].t, found) && Lockable(s.db, s.txs[x].t, stock, order)
    ensures var s := Run(Start, before);
            && s.db.tickets[s.txs[x].t].status != Complete
            && EnabledRun(s, Finishing(x, found, stock, order, newId))
            && CompletedIfCovered(s.db, Run(s, Finishing(x, found, stock, order, newId)).db, s.txs[x].t, found, stock, order)
  {
    RunKeeps(Start, before);
    hide Inv, CompletedIfCovered, Run, EnabledRun;
    var s := Run(Start, before);
    FinishesFrom(s, x, found, stock, order, newId);
  }

  lemma {:induction false} FinishesFrom(s: State, x: TxId, found: Option<RequestId>, stock: Stock, order: seq<Resolved>, newId: RequestId)
    requires Inv(s) && x in s.txs && s.txs[x].Claimed? && s.txs[x].goal.ToComplete?
    requires MayFind(s.db, s.txs[x].t, found) && Lockable(s.db, s.txs[x].t, stock, order)
    ensures s.db.tickets[s.txs[x].t].status != Complete
    ensures EnabledRun(s, Finishing(x, found, stock, order, newId))
    ensures CompletedIfCovered(s.db, Run(s, Finishing(x, found, stock, order, newId)).db, s.txs[x].t, found, stock, order)
  {
    var t := s.txs[x].t;
    FinishingRuns(s, x, found, stock, order, newId);
    hide Run, EnabledRun, Coverable, Resolves, CompletionOK, WithinCeilings, CompletedIfCovered, TxOK;
    assert HoldsTicket(s.txs[x], t) && TicketOK(s.db, t);
    assert t !in s.db.completions && !Terminal(s.db.tickets[t].status);
    PostsExactlyWhenCoverable(s.db, t, found, stock, order);
    hide TicketOK;
    var s1 := Step(s, ReadRequest(x, found));
    var approved := if found.Some? && s.db.requests[found.value].status == Approved then Some(s.db.requests[found.value].snapshot) else None;
    StepKeeps(s, ReadRequest(x, found));
    assert s1 == Went(s, x, SawRequest(t, found, approved));
    var s2 := Step(s1, ReadTicket(x));
    StepKeeps(s1, ReadTicket(x));
    hide Inv, MayFind;
    assert s2 == Went(s1, x, SawTicket(t, found, approved, s.db.tickets[t].masses));
    FinishesReading(s.db, s2, x, t, found, approved, stock, order, newId);
  }

  lemma {:induction false} FinishesReading(db: Db, s: State, x: TxId, t: TicketId, found: Option<RequestId>, approved: Option<seq<Shortage>>,
                        stock: Stock, order: seq<Resolved>, newId: RequestId)
    requires Inv(s) && s.db == db && Lockable(db, t, stock, order)
    requires x in s.txs && s.txs[x] == SawTicket(t, found, approved, db.tickets[t].masses)
    requires found.Some? ==> ActiveFor(db, t, found.value)
    requires var run := PostAll(stock, t, order, Ceilings(approved));
             && (run.Completed? <==> Coverable(db, found, stock, order))
             && (run.Completed? ==> run.shortages == Shorts(stock.stores, order, |order|))
    requires approved.None? ==> Coverable(db, found, stock, order) ==> !RealShortage(stock, order)
    requires Enabled(s, PostMovements(x, stock, order))
    ensures CompletedIfCovered(db, Step(Step(Step(s, PostMovements(x, stock, order)), ResolveRequest(x)), Commit(x, newId)).db, t, found, stock, order)
  {
    hide Coverable, PostAll, ShortAt, Shorts, Inv, Ceilings, Resolves, ActiveFor, Enabled, Step;
    assert Resolves(order, db.tickets[t].masses) && t in db.tickets;
    StepKeeps(s, PostMovements(x, stock, order));
    PostsInto(s, x, stock, order);
    ShortsEmpty(stock.stores, order, |order|);
    var s3 := Step(s, PostMovements(x, stock, order));
    assert s3.db == db;
    hide Lockable;
    if Coverable(db, found, stock, order) {
      ResolvesAndCommits(s3, x, newId);
    } else {
      NothingLeftToDo(s3, x, newId);
    }
  }

  lemma NothingLeftToDo(s: State, x: TxId, newId: RequestId)
    requires x !in s.txs
    ensures Step(Step(s, ResolveRequest(x)), Commit(x, newId)) == s
  {
    hide ResolveStep, Committed;
  }

  lemma PostsInto(s: State, x: TxId, stock: Stock, order: seq<Resolved>)
    requires Enabled(s, PostMovements(x, stock, order)) && x in s.txs && s.txs[x].SawTicket? && Resolves(order, s.txs[x].masses)
    ensures var tx := s.txs[x];
            var s' := Step(s, PostMovements(x, stock, order));
            match PostAll(stock, tx.t, order, Ceilings(tx.approved))
            case Refused(_) => s' == Ended(s, x)
            case Completed(_, shortages) => s' == Went(s, x, PostedAll(tx.t, tx.active, tx.approved, Completion(order, shortages, None)))
  {
    hide PostAll, Ceilings, Resolves, LedgerOf;
  }

  lemma ResolvesAndCommits(s: State, x: TxId, newId: RequestId)
    requires Inv(s) && x in s.txs && s.txs[x].PostedAll? && s.txs[x].t in s.db.tickets
    requires s.txs[x].active.Some? ==> ActiveFor(s.db, s.txs[x].t, s.txs[x].active.value)
    requires s.txs[x].done.shortages != [] ==> s.txs[x].approved.Some?
    ensures var db := Step(Step(s, ResolveRequest(x)), Commit(x, newId)).db;
            var tx := s.txs[x];
            && tx.t in db.tickets && db.tickets[tx.t].status == Complete
            && tx.t in db.completions && db.completions[tx.t].posted == tx.done.posted && db.completions[tx.t].shortages == tx.done.shortages
            && (tx.active.Some? ==>
                  tx.active.value in db.requests
                  && db.requests[tx.active.value].status == if tx.done.shortages != [] then Consumed else Expired)
  {
    hide TicketOK, CompletionOK, WithinCeilings, Resolves;
    assert TxOK(s.db, s.txs[x]);
    if s.txs[x].active.Some? { NobodyElseHolds(s, x, s.txs[x].t, s.txs[x].active.value); }
    hide Inv;
    var s' := Step(s, ResolveRequest(x));
    assert s'.db == s.db && x in s'.txs && s'.txs[x].ResolvedRequest? && s'.txs[x].t == s.txs[x].t;
  }

  // ---- What the other transactions come to, left alone ---------------------------------------

  predicate IsOpen(db: Db, t: TicketId) {
    t in db.tickets && (db.tickets[t].status == Released || db.tickets[t].status == Batching)
  }

  /** A claim waits for the ticket's row, then takes it while the ticket is open and gives up once it is not. */
  lemma ClaimsExactlyWhenOpen(s: State, x: TxId)
    requires x in s.txs && s.txs[x].Begun?
    ensures var t := s.txs[x].t;
            var free := forall y :: y in s.txs ==> !HoldsTicket(s.txs[y], t);
            Step(s, Claim(x)) ==
              if !free then s
              else if IsOpen(s.db, t) then s.(txs := s.txs[x := Claimed(t, s.txs[x].goal)])
              else s.(txs := s.txs - {x})
  {}

  /** A cancellation ends the ticket and every request still open on it, and changes nothing else. */
  lemma CancelsWithItsRequests(s: State, x: TxId, newId: RequestId)
    requires Inv(s) && x in s.txs && s.txs[x].Claimed? && s.txs[x].goal == ToCancel
    ensures var t := s.txs[x].t;
            var db := Step(Step(s, ExpireAll(x)), Commit(x, newId)).db;
            && t in s.db.tickets && db.tickets == s.db.tickets[t := s.db.tickets[t].(status := Cancelled)] && db.completions == s.db.completions
            && db.requests.Keys == s.db.requests.Keys
            && forall r :: r in s.db.requests ==>
                 db.requests[r] == if s.db.requests[r].ticket == t && s.db.requests[r].status in {Pending, Approved}
                                   then s.db.requests[r].(status := Expired) else s.db.requests[r]
  {
    hide TicketOK, TxOK;
    var t := s.txs[x].t;
    assert HoldsTicket(s.txs[x], t);
    forall r | r in ActiveRequests(s.db, t) ensures RequestFree(s, r) { NobodyElseHolds(s, x, t, r); }
    var s1 := Step(s, ExpireAll(x));
    assert s1 == Went(s, x, Expiring(t, ActiveRequests(s.db, t)));
  }

  /** A request is opened exactly if the dry run finds a real shortage, for what it finds, component by component. */
  lemma {:induction false} RequestsExactlyWhenShort(s: State, x: TxId, stock: Stock, order: seq<Resolved>, newId: RequestId)
    requires Inv(s) && x in s.txs && s.txs[x].Claimed? && s.txs[x].goal == ToRequest && newId !in s.db.requests
    requires Lockable(s.db, s.txs[x].t, stock, order)
    ensures var t := s.txs[x].t;
            var none := forall r :: r in s.db.requests && s.db.requests[r].ticket == t ==> s.db.requests[r].status !in {Pending, Approved};
            && (none ==>
                  var db := Step(Step(Step(s, ReadRequest(x, None)), TakeSnapshot(x, stock.stores, order)), Commit(x, newId)).db;
                  db == if RealShortage(stock, order)
                        then s.db.(requests := s.db.requests[newId := Request(t, Pending, Shorts(stock.stores, order, |order|))]) else s.db)
            && (!none ==> forall found :: MayFind(s.db, t, found) ==>
                  var db := Step(Step(Step(s, ReadRequest(x, found)), TakeSnapshot(x, stock.stores, order)), Commit(x, newId)).db;
                  db == s.db)
  {
    hide TicketOK, TxOK, Inv, Resolves, DryRun, ShortAt, Shorts;
    var t, stores := s.txs[x].t, stock.stores;
    assert order[..|order|] == order;
    DryRunClosed(stores, order, |order|);
    ShortsEmpty(stores, order, |order|);
    var none := forall r :: r in s.db.requests && s.db.requests[r].ticket == t ==> s.db.requests[r].status !in {Pending, Approved};
    if none {
      assert ActiveRequests(s.db, t) == {};
      assert MayFind(s.db, t, None);
      var s1 := Step(s, ReadRequest(x, None));
      assert s1 == Went(s, x, NoneActive(t));
      SnapshotTaken(s1, x, stores, order, newId);
    } else {
      var r :| r in s.db.requests && s.db.requests[r].ticket == t && s.db.requests[r].status in {Pending, Approved};
      assert r in ActiveRequests(s.db, t);
      forall found | MayFind(s.db, t, found)
        ensures Step(Step(Step(s, ReadRequest(x, found)), TakeSnapshot(x, stores, order)), Commit(x, newId)).db == s.db
      {
        assert found.Some?;
        assert Step(s, ReadRequest(x, found)) == Ended(s, x);
      }
    }
  }

  lemma {:induction false} SnapshotTaken(s: State, x: TxId, stores: map<StorageId, Storage>, order: seq<Resolved>, newId: RequestId)
    requires x in s.txs && s.txs[x].NoneActive? && s.txs[x].t in s.db.tickets && Resolves(order, s.db.tickets[s.txs[x].t].masses)
    requires AllStored(stores, order) && newId !in s.db.requests
    ensures var entries := DryRun(stores, order).entries;
            Step(Step(s, TakeSnapshot(x, stores, order)), Commit(x, newId)).db
            == if entries == [] then s.db else s.db.(requests := s.db.requests[newId := Request(s.txs[x].t, Pending, entries)])
  {
    hide DryRun, Resolves;
  }

  /** An edit lands on an open ticket: its components, and its move to BATCHING where a reading is recorded. */
  lemma EditsLand(s: State, x: TxId, newId: RequestId)
    requires Inv(s) && x in s.txs && s.txs[x].Claimed? && s.txs[x].goal.ToEdit?
    ensures var (t, goal) := (s.txs[x].t, s.txs[x].goal);
            && t in s.db.tickets
            && Step(s, Commit(x, newId)).db
               == s.db.(tickets := s.db.tickets[t := Ticket(if goal.recording then Batching else s.db.tickets[t].status, goal.masses)])
  {
    hide TicketOK, TxOK;
    assert HoldsTicket(s.txs[x], s.txs[x].t);
  }

  /** A decision lands on a request still PENDING, of a ticket that was open when it was checked; it lands as it was meant, once. */
  lemma DecidesExactlyWhenPending(s: State, x: TxId)
    requires x in s.txs && s.txs[x].Deciding? && forall y :: y in s.txs ==> !HoldsRequest(s.txs[y], s.txs[x].r)
    ensures var (r, approve) := (s.txs[x].r, s.txs[x].approve);
            var db := Step(Step(Step(s, ReadDecided(x)), CheckTicket(x)), Decide(x)).db;
            var takes := r in s.db.requests && s.db.requests[r].status == Pending
                         && !(s.db.requests[r].ticket in s.db.tickets && s.db.tickets[s.db.requests[r].ticket].status in {Complete, Cancelled});
            db == if takes
                  then s.db.(requests := s.db.requests[r := s.db.requests[r].(status := if approve then Approved else Rejected)]) else s.db
  {
    var r := s.txs[x].r;
    var s1 := Step(s, ReadDecided(x));
    var s2 := Step(s1, CheckTicket(x));
    assert RequestFree(s2, r);
  }

  /** Tickets are created released, transactions begin with nothing read or locked. */
  lemma Beginnings(s: State, x: TxId, t: TicketId, r: RequestId, masses: map<MaterialId, real>, goal: Goal, approve: bool)
    requires x !in s.txs
    ensures t !in s.db.tickets ==> Step(s, Create(t, masses)) == s.(db := s.db.(tickets := s.db.tickets[t := Ticket(Released, masses)]))
    ensures t in s.db.tickets ==> Step(s, Create(t, masses)) == s
    ensures Step(s, Begin(x, t, goal)) == s.(txs := s.txs[x := Begun(t, goal)])
    ensures Step(s, BeginDecision(x, r, approve)) == s.(txs := s.txs[x := Deciding(r, approve)])
  {}

  /** Nobody holds the ticket, nobody has asked for it to be let through, and its stores can be locked. */
  ghost predicate Quiet(s: State, t: TicketId, stock: Stock, order: seq<Resolved>) {
    IsOpen(s.db, t) && TicketFree(s, t) && ActiveRequests(s.db, t) == {} && Lockable(s.db, t, stock, order)
  }

  function Asked(s: State, x: TxId, t: TicketId, stock: Stock, order: seq<Resolved>, r: RequestId): State {
    Step(Step(Step(Step(Step(s, Begin(x, t, ToRequest)), Claim(x)), ReadRequest(x, None)), TakeSnapshot(x, stock.stores, order)), Commit(x, r))
  }

  function Allowed(s: State, x: TxId, r: RequestId): State {
    Step(Step(Step(Step(s, BeginDecision(x, r, true)), ReadDecided(x)), CheckTicket(x)), Decide(x))
  }

  lemma {:induction false} AskedKeeps(s: State, x: TxId, t: TicketId, stock: Stock, order: seq<Resolved>, r: RequestId)
    requires Inv(s)
    ensures Inv(Step(Step(s, Begin(x, t, ToRequest)), Claim(x))) && Inv(Asked(s, x, t, stock, order, r))
  {
    hide Inv, Step;
    StepKeeps(s, Begin(x, t, ToRequest));
    var s1 := Step(s, Begin(x, t, ToRequest));
    StepKeeps(s1, Claim(x));
    var s2 := Step(s1, Claim(x));
    StepKeeps(s2, ReadRequest(x, None));
    var s3 := Step(s2, ReadRequest(x, None));
    StepKeeps(s3, TakeSnapshot(x, stock.stores, order));
    StepKeeps(Step(s3, TakeSnapshot(x, stock.stores, order)), Commit(x, r));
  }

  lemma ReadsNone(s: State, x: TxId)
    requires x in s.txs && s.txs[x].Claimed? && s.txs[x].goal == ToRequest && ActiveRequests(s.db, s.txs[x].t) == {}
    ensures Step(s, ReadRequest(x, None)) == Went(s, x, NoneActive(s.txs[x].t))
  {}

  lemma ClaimedAfterBegin(s: State, x: TxId, t: TicketId, goal: Goal)
    requires x !in s.txs && IsOpen(s.db, t) && TicketFree(s, t)
    ensures Step(Step(s, Begin(x, t, goal)), Claim(x)) == s.(txs := s.txs[x := Claimed(t, goal)])
  {
    var s1 := s.(txs := s.txs[x := Begun(t, goal)]);
    assert Step(s, Begin(x, t, goal)) == s1;
    forall y | y in s1.txs ensures !HoldsTicket(s1.txs[y], t) {}
    assert s1.txs[x := Claimed(t, goal)] == s.txs[x := Claimed(t, goal)];
  }

  /** The snapshot and the insert end the transaction and touch no other. */
  lemma {:induction false} AskingEnds(s: State, x: TxId, stock: Stock, order: seq<Resolved>, r: RequestId)
    requires x in s.txs && s.txs[x].Claimed? && s.txs[x].goal == ToRequest && ActiveRequests(s.db, s.txs[x].t) == {}
    requires Lockable(s.db, s.txs[x].t, stock, order)
    ensures var s' := Step(Step(Step(s, ReadRequest(x, None)), TakeSnapshot(x, stock.stores, order)), Commit(x, r));
            x !in s'.txs && s'.txs - {x} == s.txs - {x}
  {
    ReadsNone(s, x);
    hide Step, Resolves;
    var s3 := Step(s, ReadRequest(x, None));
    var s4 := Step(s3, TakeSnapshot(x, stock.stores, order));
    OnlyOwnTx(s3, TakeSnapshot(x, stock.stores, order), x);
    OnlyOwnTx(s4, Commit(x, r), x);
    EndsAfter(s3, x, stock, order, r);
  }

  lemma {:induction false} AskedIs(s: State, x: TxId, t: TicketId, stock: Stock, order: seq<Resolved>, r: RequestId)
    requires Inv(s) && x !in s.txs && r !in s.db.requests && Quiet(s, t, stock, order) && RealShortage(stock, order)
    ensures Asked(s, x, t, stock, order, r)
            == s.(db := s.db.(requests := s.db.requests[r := Request(t, Pending, Shorts(stock.stores, order, |order|))]))
    ensures Inv(Asked(s, x, t, stock, order, r))
  {
    AskedKeeps(s, x, t, stock, order, r);
    hide Step, Inv, RealShortage, Resolves, Shorts, ShortAt, Lockable, TicketFree;
    ClaimedAfterBegin(s, x, t, ToRequest);
    var s2 := s.(txs := s.txs[x := Claimed(t, ToRequest)]);
    AskingEnds(s2, x, stock, order, r);
    RequestsExactlyWhenShort(s2, x, stock, order, r);
    assert forall q :: q in s.db.requests && s.db.requests[q].ticket == t && s.db.requests[q].status in {Pending, Approved} ==> q in ActiveRequests(s.db, t);
    assert s2.txs - {x} == s.txs - {x};
    WithoutOwn(s.txs, Asked(s, x, t, stock, order, r).txs, x);
  }

  lemma WithoutOwn(txs: map<TxId, Tx>, txs': map<TxId, Tx>, x: TxId)
    requires x !in txs && x !in txs' && txs' - {x} == txs - {x}
    ensures txs' == txs
  {
    assert txs - {x} == txs && txs' - {x} == txs';
  }

  lemma {:induction false} EndsAfter(s: State, x: TxId, stock: Stock, order: seq<Resolved>, r: RequestId)
    requires x in s.txs && s.txs[x].NoneActive? && s.txs[x].t in s.db.tickets && Resolves(order, s.db.tickets[s.txs[x].t].masses)
    requires AllStored(stock.stores, order)
    ensures x !in Step(Step(s, TakeSnapshot(x, stock.stores, order)), Commit(x, r)).txs
  {
    hide DryRun, Resolves;
  }

  lemma OnlyOwnTx(s: State, e: Event, x: TxId)
    requires (e.TakeSnapshot? || e.Commit?) && e.x == x
    ensures Step(s, e).txs - {x} == s.txs - {x}
  {
    hide DryRun, Resolves, Committed;
  }

  lemma {:induction false} AllowedKeeps(s: State, x: TxId, r: RequestId)
    requires Inv(s)
    ensures Inv(Step(s, BeginDecision(x, r, true))) && Inv(Allowed(s, x, r))
  {
    hide Inv, Step;
    StepKeeps(s, BeginDecision(x, r, true));
    var s1 := Step(s, BeginDecision(x, r, true));
    StepKeeps(s1, ReadDecided(x));
    var s2 := Step(s1, ReadDecided(x));
    StepKeeps(s2, CheckTicket(x));
    StepKeeps(Step(s2, CheckTicket(x)), Decide(x));
  }

  lemma {:induction false} AllowedIs(s: State, x: TxId, r: RequestId)
    requires Inv(s) && x !in s.txs && r in s.db.requests && s.db.requests[r].status == Pending
    requires IsOpen(s.db, s.db.requests[r].ticket) && TicketFree(s, s.db.requests[r].ticket)
    ensures Allowed(s, x, r) == s.(db := s.db.(requests := s.db.requests[r := s.db.requests[r].(status := Approved)]))
    ensures Inv(Allowed(s, x, r))
  {
    AllowedKeeps(s, x, r);
    hide Inv;
    Beginnings(s, x, 0, r, map[], ToRequest, true);
    var s1 := Step(s, BeginDecision(x, r, true));
    forall y | y in s1.txs ensures !HoldsRequest(s1.txs[y], r) { FreeTicketFreeRequest(s1, y, r); }
    DecidesExactlyWhenPending(s1, x);
    DecisionEnds(s1, x);
    WithoutOwn(s.txs, Allowed(s, x, r).txs, x);
  }

  lemma DecisionEnds(s: State, x: TxId)
    requires x in s.txs && s.txs[x].Deciding? && forall y :: y in s.txs ==> !HoldsRequest(s.txs[y], s.txs[x].r)
    ensures var s' := Step(Step(Step(s, ReadDecided(x)), CheckTicket(x)), Decide(x));
            x !in s'.txs && s'.txs - {x} == s.txs - {x}
  {
    var s2 := Step(Step(s, ReadDecided(x)), CheckTicket(x));
    assert x in s2.txs ==> RequestFree(s2, s.txs[x].r);
  }

  lemma FreeTicketFreeRequest(s: State, y: TxId, r: RequestId)
    requires Inv(s) && y in s.txs && r in s.db.requests && !HoldsTicket(s.txs[y], s.db.requests[r].ticket)
    ensures !HoldsRequest(s.txs[y], r)
  {
    hide TicketOK, CompletionOK, WithinCeilings;
    assert TxOK(s.db, s.txs[y]);
    assert HoldsRequest(s.txs[y], r) ==> ActiveFor(s.db, s.txs[y].t, r);
  }

  lemma {:induction false} ShortsCover(stores: map<StorageId, Storage>, order: seq<Resolved>, i: nat)
    requires AllStored(stores, order) && i < |order|
    requires forall j, k :: 0 <= j < k < |order| ==> order[j].materialId != order[k].materialId
    ensures CoveredBy(Shorts(stores, order, |order|), order[i].materialId, ShortAt(stores, order, i))
  {
    ShortsAreApproved(stores, order, |order|);
    CeilingCovers(Shorts(stores, order, |order|), order[i].materialId, ShortAt(stores, order, i));
  }

  /**
   From asking to completing, in any reachable state where the ticket is open, free
   and has no request on it: with stock too short, the request asks for what is
   short; once it is approved, and the stores still as they were, the completion
   goes through with exactly those shortages and uses the approval up.
   */
  lemma {:induction false} ApprovedShortageCompletes(before: seq<Event>, x: TxId, y: TxId, z: TxId, t: TicketId, r: RequestId, stock: Stock, order: seq<Resolved>, newId: RequestId)
    requires EnabledRun(Start, before)
    requires var s := Run(Start, before);
             && x !in s.txs && y !in s.txs && z !in s.txs && r !in s.db.requests
             && Quiet(s, t, stock, order) && RealShortage(stock, order)
    ensures var s := Run(Start, before);
            var s2 := Allowed(Asked(s, x, t, stock, order, r), y, r);
            var s3 := Step(Step(s2, Begin(z, t, ToComplete)), Claim(z));
            && EnabledRun(s3, Finishing(z, Some(r), stock, order, newId))
            && var db := Run(s3, Finishing(z, Some(r), stock, order, newId)).db;
            && t in db.tickets && db.tickets[t].status == Complete
            && t in db.completions && db.completions[t].shortages == Shorts(stock.stores, order, |order|)
            && r in db.requests && db.requests[r].status == Consumed
  {
    RunKeeps(Start, before);
    hide Run, EnabledRun;
    FromAskingToCompleting(Run(Start, before), x, y, z, t, r, stock, order, newId);
  }

  lemma {:induction false} FromAskingToCompleting(s: State, x: TxId, y: TxId, z: TxId, t: TicketId, r: RequestId, stock: Stock, order: seq<Resolved>, newId: RequestId)
    requires Inv(s) && x !in s.txs && y !in s.txs && z !in s.txs && r !in s.db.requests
    requires Quiet(s, t, stock, order) && RealShortage(stock, order)
    ensures var s2 := Allowed(Asked(s, x, t, stock, order, r), y, r);
            var s3 := Step(Step(s2, Begin(z, t, ToComplete)), Claim(z));
            && EnabledRun(s3, Finishing(z, Some(r), stock, order, newId))
            && var db := Run(s3, Finishing(z, Some(r), stock, order, newId)).db;
            && t in db.tickets && db.tickets[t].status == Complete
            && t in db.completions && db.completions[t].shortages == Shorts(stock.stores, order, |order|)
            && r in db.requests && db.requests[r].status == Consumed
  {
    hide Run, EnabledRun, RealShortage, Shorts, ShortAt, Asked, Allowed, Finishing, Step, Inv, Resolves;
    AskedIs(s, x, t, stock, order, r);
    var s1 := Asked(s, x, t, stock, order, r);
    assert TicketFree(s1, t) && IsOpen(s1.db, t);
    AllowedIs(s1, y, r);
    var s2 := Allowed(s1, y, r);
    assert s2.txs == s.txs && TicketFree(s2, t) && IsOpen(s2.db, t) && Lockable(s2.db, t, stock, order);
    CompletesOnceApproved(s2, z, t, r, stock, order, newId);
  }

  lemma {:induction false} CompletesOnceApproved(s: State, z: TxId, t: TicketId, r: RequestId, stock: Stock, order: seq<Resolved>, newId: RequestId)
    requires Inv(s) && z !in s.txs && IsOpen(s.db, t) && TicketFree(s, t) && Lockable(s.db, t, stock, order) && RealShortage(stock, order)
    requires r in s.db.requests && s.db.requests[r] == Request(t, Approved, Shorts(stock.stores, order, |order|))
    ensures var s3 := Step(Step(s, Begin(z, t, ToComplete)), Claim(z));
            && EnabledRun(s3, Finishing(z, Some(r), stock, order, newId))
            && var db := Run(s3, Finishing(z, Some(r), stock, order, newId)).db;
            && t in db.tickets && db.tickets[t].status == Complete
            && t in db.completions && db.completions[t].shortages == Shorts(stock.stores, order, |order|)
            && r in db.requests && db.requests[r].status == Consumed
  {
    ClaimKept(s, z, t);
    hide Run, EnabledRun, RealShortage, Shorts, ShortAt, CoveredBy, Finishing, Step, Inv, Resolves;
    ClaimedAfterBegin(s, z, t, ToComplete);
    var s3 := s.(txs := s.txs[z := Claimed(t, ToComplete)]);
    assert Lockable(s3.db, t, stock, order) && r in ActiveRequests(s3.db, t);
    OneRowEach(s.db, t, stock, order);
    forall i | 0 <= i < |order| { ShortsCover(stock.stores, order, i); }
    assert Coverable(s3.db, Some(r), stock, order);
    FinishesFrom(s3, z, Some(r), stock, order, newId);
  }

  lemma ClaimKept(s: State, z: TxId, t: TicketId)
    requires Inv(s)
    ensures Inv(Step(Step(s, Begin(z, t, ToComplete)), Claim(z)))
  {
    hide Inv, Step;
    StepKeeps(s, Begin(z, t, ToComplete));
    StepKeeps(Step(s, Begin(z, t, ToComplete)), Claim(z));
  }

  lemma OneRowEach(db: Db, t: TicketId, stock: Stock, order: seq<Resolved>)
    requires Lockable(db, t, stock, order)
    ensures forall j, k :: 0 <= j < k < |order| ==> order[j].materialId != order[k].materialId
  {}

  const SHORT_STOCK := Stock(map[0 := Storage(4.0, None)], [], map[])
  const TEN_OF_FIVE := [Resolved(5, 0, 10.0)]

  /** Such states are reached: a ticket just created that asks for ten of a material of which four are left. */
  lemma ATicketRunsShort()
    ensures EnabledRun(Start, [Create(0, map[5 := 10.0])])
    ensures var s := Run(Start, [Create(0, map[5 := 10.0])]);
            s.txs == map[] && s.db.requests == map[] && Quiet(s, 0, SHORT_STOCK, TEN_OF_FIVE) && RealShortage(SHORT_STOCK, TEN_OF_FIVE)
  {
    var s := Step(Start, Create(0, map[5 := 10.0]));
    assert Run(s, []) == s;
    assert Run(Start, [Create(0, map[5 := 10.0])]) == s;
    assert TEN_OF_FIVE[0].materialId == 5;
    assert Resolves(TEN_OF_FIVE, map[5 := 10.0]);
    assert TEN_OF_FIVE[..0] == [] && Drawn(TEN_OF_FIVE[..0], 0) == 0.0;
    assert ShortAt(SHORT_STOCK.stores, TEN_OF_FIVE, 0) == 6.0;
  }

  /** What one step may do to what is committed: decided or spent requests stay as they are, and so do finished tickets. */
  ghost predicate Final(db: Db, db': Db) {
    && (forall r: RequestId :: r in db.requests ==>
          && r in db'.requests && db'.requests[r].ticket == db.requests[r].ticket
          && db'.requests[r].snapshot == db.requests[r].snapshot
          && (!Active(db.requests[r].status) ==> db'.requests[r].status == db.requests[r].status)
          && (db.requests[r].status == Approved ==> db'.requests[r].status in {Approved, Consumed, Expired}))
    && (forall t: TicketId :: t in db.tickets && Terminal(db.tickets[t].status) ==>
          t in db'.tickets && db'.tickets[t] == db.tickets[t])
    && (forall t: TicketId :: t in db.completions ==> t in db'.completions && db'.completions[t] == db.completions[t])
  }

  lemma CommitIsFinal(s: State, x: TxId, newId: RequestId)
    requires Inv(s) && x in s.txs && ReadyToCommit(s, x)
    ensures Final(s.db, Committed(s.db, s.txs[x], newId))
  {
    hide Resolves, WithinCeilings, CompletionOK;
    var tx := s.txs[x];
    assert TxOK(s.db, tx) && HoldsTicket(tx, tx.t) && TicketOK(s.db, tx.t);
    if tx.Expiring? { assert forall r: RequestId :: r in tx.expired ==> ActiveFor(s.db, tx.t, r); }
    if tx.ResolvedRequest? && tx.write.Some? { assert ActiveFor(s.db, tx.t, tx.write.value); }
  }

  lemma OnlyTheseWrite(s: State, e: Event)
    requires Enabled(s, e) && !e.Commit? && !e.Create? && !e.Decide?
    ensures Step(s, e).db == s.db
  {
    hide Resolves, PostAll, DryRun, ActiveRequests;
  }

  /** A decided or spent request never changes again, and neither does what a ticket was completed with. */
  lemma DecisionsAreFinal(s: State, e: Event)
    requires Inv(s) && Enabled(s, e)
    ensures Final(s.db, Step(s, e).db)
  {
    hide Inv, TicketOK, Committed, ReadRequestStep, PostStep, ResolveStep, ExpireStep, SnapshotStep;
    match e
    case Commit(x, newId) => if x in s.txs && ReadyToCommit(s, x) { CommitIsFinal(s, x, newId); }
    case Create(_, _) =>
    case Decide(_) =>
    case _ => OnlyTheseWrite(s, e);
  }
}
