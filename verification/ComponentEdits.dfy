/**
 The versioned server side of a reading: single-field autosave, the bulk form,
 and adding and deleting components. `log` is the history of accepted field
 writes; nothing reads it, the theorems are about it.
 */
module ComponentEdits {
  import opened Wrappers

  datatype TicketStatus = Released | Batching | Complete | Cancelled

  datatype Which = Actual | Moisture

  datatype Component = Component(
    ticketId: nat, actualMassKg: Option<real>, actualVersion: nat,
    moisturePct: Option<real>, moistureVersion: nat)

  datatype Accepted = Accepted(componentId: nat, which: Which, presented: nat, value: real)

  datatype Records = Records(
    tickets: map<nat, TicketStatus>, components: map<nat, Component>, log: seq<Accepted>)

  datatype FieldResult =
    | Ok(version: nat)
    | Terminal
    | StaleReading(currentVersion: nat, currentValue: Option<real>)

  datatype BulkWrite = BulkWrite(
    id: nat, actualMassKg: real, moisturePct: Option<real>,
    expectedActualVersion: nat, expectedMoistureVersion: nat)

  datatype BulkResult = BulkOk | BulkTerminal | BulkStale(staleIds: seq<nat>)

  predicate Editable(db: Records, ticketId: nat) {
    ticketId in db.tickets && db.tickets[ticketId] != Complete && db.tickets[ticketId] != Cancelled
  }

  function VersionOf(c: Component, which: Which): nat {
    if which.Actual? then c.actualVersion else c.moistureVersion
  }

  function ValueOf(c: Component, which: Which): Option<real> {
    if which.Actual? then c.actualMassKg else c.moisturePct
  }

  /** One conditional update: the field's new value, and its own version plus one. */
  function WriteField(db: Records, id: nat, which: Which, value: real): Records
    requires id in db.components
  {
    var c := db.components[id];
    var c' := if which.Actual? then c.(actualMassKg := Some(value), actualVersion := c.actualVersion + 1)
              else c.(moisturePct := Some(value), moistureVersion := c.moistureVersion + 1);
    db.(components := db.components[id := c'],
        log := db.log + [Accepted(id, which, VersionOf(c, which), value)])
  }

  /** The autosave of one field. A stale answer still commits the ticket's move to BATCHING. */
  function RecordField(db: Records, ticketId: nat, id: nat, which: Which, value: real, expected: nat): (Records, FieldResult) {
    if !Editable(db, ticketId) then (db, Terminal)
    else
      var claimed := db.(tickets := db.tickets[ticketId := Batching]);
      if id in db.components && VersionOf(db.components[id], which) == expected then
        (WriteField(claimed, id, which, value), Ok(expected + 1))
      else if id in db.components then
        (claimed, StaleReading(VersionOf(db.components[id], which), ValueOf(db.components[id], which)))
      else (claimed, StaleReading(0, None))
  }

  /** Whether one bulk write finds the two versions it was rendered with. */
  predicate Matches(db: Records, w: BulkWrite) {
    && w.id in db.components
    && db.components[w.id].actualVersion == w.expectedActualVersion
    && db.components[w.id].moistureVersion == w.expectedMoistureVersion
  }

  function ApplyBulkWrite(db: Records, w: BulkWrite): Records
    requires Matches(db, w)
  {
    var db1 := WriteField(db, w.id, Actual, w.actualMassKg);
    if w.moisturePct.Some? then WriteField(db1, w.id, Moisture, w.moisturePct.value) else db1
  }

  /** The loop over the submitted writes: the state so far and the ids found stale. */
  function ApplyAll(db: Records, writes: seq<BulkWrite>): (Records, seq<nat>) {
    if writes == [] then (db, [])
    else
      var (d, stale) := ApplyAll(db, writes[..|writes| - 1]);
      var w := writes[|writes| - 1];
      if Matches(d, w) then (ApplyBulkWrite(d, w), stale) else (d, stale + [w.id])
  }

  /** The bulk transaction: any stale component rolls back every write and the claim. */
  function RecordActuals(db: Records, ticketId: nat, writes: seq<BulkWrite>): (Records, BulkResult) {
    if !Editable(db, ticketId) then (db, BulkTerminal)
    else
      var (d, stale) := ApplyAll(db.(tickets := db.tickets[ticketId := Batching]), writes);
      if stale == [] then (d, BulkOk) else (db, BulkStale(stale))
  }

  /** The database rows, updated in place by the two save paths. */
  class ComponentTable {
    var tickets: map<nat, TicketStatus>
    var components: map<nat, Component>
    ghost var log: seq<Accepted>

    ghost function Rows(): Records
      reads this
    {
      Records(tickets, components, log)
    }

    constructor ()
      ensures Rows() == Records(map[], map[], [])
    {
      tickets, components, log := map[], map[], [];
    }

    method ClaimAndRecordActualField(ticketId: nat, id: nat, which: Which, value: real, expected: nat)
      returns (r: FieldResult)
      modifies this
      ensures (Rows(), r) == RecordField(old(Rows()), ticketId, id, which, value, expected)
    {
      if ticketId !in tickets || tickets[ticketId] == Complete || tickets[ticketId] == Cancelled {
        return Terminal;
      }
      tickets := tickets[ticketId := Batching];
      if id in components && VersionOf(components[id], which) == expected {
        var c := components[id];
        if which.Actual? {
          c := c.(actualMassKg := Some(value), actualVersion := c.actualVersion + 1);
        } else {
          c := c.(moisturePct := Some(value), moistureVersion := c.moistureVersion + 1);
        }
        components := components[id := c];
        log := log + [Accepted(id, which, expected, value)];
        return Ok(expected + 1);
      }
      if id in components {
        return StaleReading(VersionOf(components[id], which), ValueOf(components[id], which));
      }
      return StaleReading(0, None);
    }

    method ClaimAndRecordActuals(ticketId: nat, writes: seq<BulkWrite>) returns (r: BulkResult)
      modifies this
      ensures (Rows(), r) == RecordActuals(old(Rows()), ticketId, writes)
    {
      if ticketId !in tickets || tickets[ticketId] == Complete || tickets[ticketId] == Cancelled {
        return BulkTerminal;
      }
      // What a rolled-back transaction restores.
      var tickets0, components0 := tickets, components;
      ghost var log0 := log;
      tickets := tickets[ticketId := Batching];
      ghost var claimed := Rows();
      var staleIds: seq<nat> := [];
      for i := 0 to |writes|
        invariant (Rows(), staleIds) == ApplyAll(claimed, writes[..i])
      {
        var w := writes[i];
        assert writes[..i + 1][..i] == writes[..i];
        if w.id in components && components[w.id].actualVersion == w.expectedActualVersion
           && components[w.id].moistureVersion == w.expectedMoistureVersion {
          var c := components[w.id];
          log := log + [Accepted(w.id, Actual, c.actualVersion, w.actualMassKg)];
          c := c.(actualMassKg := Some(w.actualMassKg), actualVersion := c.actualVersion + 1);
          if w.moisturePct.Some? {
            log := log + [Accepted(w.id, Moisture, c.moistureVersion, w.moisturePct.value)];
            c := c.(moisturePct := w.moisturePct, moistureVersion := c.moistureVersion + 1);
          }
          components := components[w.id := c];
          assert Rows().components == ApplyAll(claimed, writes[..i + 1]).0.components;
        } else {
          staleIds := staleIds + [w.id];
        }
      }
      assert writes[..|writes|] == writes;
      if staleIds != [] {
        tickets, components, log := tickets0, components0, log0;
        return BulkStale(staleIds);
      }
      return BulkOk;
    }
  }

  // ---- Runs of the server ---------------------------------------------------

  datatype Op =
    | SaveField(ticketId: nat, id: nat, which: Which, value: real, expected: nat)
    | SaveAll(ticketId: nat, writes: seq<BulkWrite>)
    | AddComponent(ticketId: nat, id: nat)
    | DeleteComponent(ticketId: nat, id: nat)
    | SetStatus(ticketId: nat, status: TicketStatus)

  /** A component id that no row ever had: ids are random and never reused. */
  predicate FreshComponent(db: Records, id: nat) {
    id !in db.components && forall i :: 0 <= i < |db.log| ==> db.log[i].componentId != id
  }

  function Apply(db: Records, op: Op): Records {
    match op
    case SaveField(t, id, which, value, expected) => RecordField(db, t, id, which, value, expected).0
    case SaveAll(t, writes) => RecordActuals(db, t, writes).0
    case AddComponent(t, id) =>
      if Editable(db, t) && FreshComponent(db, id) then
        db.(components := db.components[id := Component(t, None, 0, None, 0)])
      else db
    case DeleteComponent(t, id) =>
      if Editable(db, t) && id in db.components then db.(components := db.components - {id}) else db
    case SetStatus(t, status) => db.(tickets := db.tickets[t := status])
  }

  function RunOps(db: Records, ops: seq<Op>): Records
    decreases |ops|
  {
    if ops == [] then db else RunOps(Apply(db, ops[0]), ops[1..])
  }

  /** The accepted writes of one field, oldest first. */
  function FieldHistory(log: seq<Accepted>, id: nat, which: Which): seq<Accepted> {
    if log == [] then []
    else
      var e := log[|log| - 1];
      FieldHistory(log[..|log| - 1], id, which) + (if e.componentId == id && e.which == which then [e] else [])
  }

  /** Write k presented version k, there are as many writes as the version says, and the last one is the value. */
  ghost predicate OneWritePerVersion(db: Records, id: nat, which: Which)
    requires id in db.components
  {
    var h := FieldHistory(db.log, id, which);
    var c := db.components[id];
    && |h| == VersionOf(c, which)
    && (forall k :: 0 <= k < |h| ==> h[k].presented == k)
    && ValueOf(c, which) == (if h == [] then None else Some(h[|h| - 1].value))
  }

  ghost predicate Versioned(db: Records) {
    forall id, which :: id in db.components ==> OneWritePerVersion(db, id, which)
  }

  lemma WriteFieldKeepsVersioned(db: Records, id: nat, which: Which, value: real)
    requires Versioned(db) && id in db.components
    ensures Versioned(WriteField(db, id, which, value))
  {
    var db' := WriteField(db, id, which, value);
    forall j, w | j in db'.components
      ensures OneWritePerVersion(db', j, w)
    {
      assert OneWritePerVersion(db, j, w);
      assert db'.log[..|db'.log| - 1] == db.log;
    }
  }

  lemma {:induction false} ApplyAllKeepsVersioned(db: Records, writes: seq<BulkWrite>)
    requires Versioned(db)
    ensures Versioned(ApplyAll(db, writes).0)
  {
    if writes != [] {
      var rest := writes[..|writes| - 1];
      ApplyAllKeepsVersioned(db, rest);
      var d, w := ApplyAll(db, rest).0, writes[|writes| - 1];
      if Matches(d, w) {
        WriteFieldKeepsVersioned(d, w.id, Actual, w.actualMassKg);
        if w.moisturePct.Some? {
          WriteFieldKeepsVersioned(WriteField(d, w.id, Actual, w.actualMassKg), w.id, Moisture, w.moisturePct.value);
        }
      }
    }
  }

  lemma {:induction false} UntouchedFieldHasNoHistory(log: seq<Accepted>, id: nat, which: Which)
    requires forall i :: 0 <= i < |log| ==> log[i].componentId != id
    ensures FieldHistory(log, id, which) == []
  {
    if log != [] { UntouchedFieldHasNoHistory(log[..|log| - 1], id, which); }
  }

  lemma SameRowsVersioned(db: Records, db': Records)
    requires Versioned(db) && db'.log == db.log
    requires forall id :: id in db'.components ==> id in db.components && db'.components[id] == db.components[id]
    ensures Versioned(db')
  {
    forall id, which | id in db'.components ensures OneWritePerVersion(db', id, which) {
      assert OneWritePerVersion(db, id, which);
    }
  }

  lemma ApplyKeepsVersioned(db: Records, op: Op)
    requires Versioned(db)
    ensures Versioned(Apply(db, op))
  {
    match op
    case SaveField(t, id, which, value, expected) =>
      var claimed := db.(tickets := db.tickets[t := Batching]);
      SameRowsVersioned(db, claimed);
      if Editable(db, t) && id in db.components && VersionOf(db.components[id], which) == expected {
        WriteFieldKeepsVersioned(claimed, id, which, value);
      }
    case SaveAll(t, writes) =>
      var claimed := db.(tickets := db.tickets[t := Batching]);
      SameRowsVersioned(db, claimed);
      ApplyAllKeepsVersioned(claimed, writes);
    case AddComponent(t, id) =>
      if Editable(db, t) && FreshComponent(db, id) {
        var db' := Apply(db, op);
        forall j, which | j in db'.components ensures OneWritePerVersion(db', j, which) {
          if j == id { UntouchedFieldHasNoHistory(db.log, id, which); } else { assert OneWritePerVersion(db, j, which); }
        }
      }
    case DeleteComponent(t, id) => SameRowsVersioned(db, Apply(db, op));
    case SetStatus(t, status) => SameRowsVersioned(db, Apply(db, op));
  }

  /**
   Main result: after any run of saves, adds, deletes and status changes, every
   version of every field came from exactly one accepted write, which presented
   the version before it, and the stored value is that of the newest one.
   */
  lemma {:induction false} EveryVersionHasOneWrite(db: Records, ops: seq<Op>)
    requires Versioned(db)
    ensures Versioned(RunOps(db, ops))
    decreases |ops|
  {
    if ops != [] {
      ApplyKeepsVersioned(db, ops[0]);
      EveryVersionHasOneWrite(Apply(db, ops[0]), ops[1..]);
    }
  }

  // ---- One save ------------------------------------------------------------

  /** Neither completed nor cancelled. */
  predicate Unfinished(db: Records, ticketId: nat) {
    ticketId in db.tickets && (db.tickets[ticketId] == Released || db.tickets[ticketId] == Batching)
  }

  /**
   A finished ticket refuses and nothing changes. On any other, the save lands
   exactly if it presents the version held: that field gets the value and the next
   version, and nothing else in the table changes. If not, the answer is what is
   held. Either way the ticket is being batched from then on.
   */
  lemma SavesExactlyCurrent(db: Records, ticketId: nat, id: nat, which: Which, value: real, expected: nat)
    ensures var (db', r) := RecordField(db, ticketId, id, which, value, expected);
            && (r.Terminal? <==> !Unfinished(db, ticketId))
            && (r.Terminal? ==> db' == db)
            && (!r.Terminal? ==> db'.tickets == db.tickets[ticketId := Batching])
            && (r.Ok? <==>
                  && Unfinished(db, ticketId) && id in db.components
                  && expected == match which case Actual => db.components[id].actualVersion case Moisture => db.components[id].moistureVersion)
            && (r.Ok? ==>
                  && r.version == expected + 1
                  && db'.components == db.components[id :=
                       match which
                       case Actual => db.components[id].(actualMassKg := Some(value), actualVersion := expected + 1)
                       case Moisture => db.components[id].(moisturePct := Some(value), moistureVersion := expected + 1)])
            && (r.StaleReading? ==> db'.components == db.components && db'.log == db.log)
            && (r.StaleReading? && id in db.components ==>
                  match which
                  case Actual => r == StaleReading(db.components[id].actualVersion, db.components[id].actualMassKg)
                  case Moisture => r == StaleReading(db.components[id].moistureVersion, db.components[id].moisturePct))
  {
  }

  /** Components come, empty and under a new id, and go on an unfinished ticket only; a status lands on its ticket alone. */
  lemma RowsComeAndGo(db: Records, t: nat, id: nat, status: TicketStatus)
    ensures Apply(db, AddComponent(t, id))
            == db.(components := if Unfinished(db, t) && FreshComponent(db, id) then db.components[id := Component(t, None, 0, None, 0)] else db.components)
    ensures Apply(db, DeleteComponent(t, id))
            == db.(components := if Unfinished(db, t) then map j | j in db.components && j != id :: db.components[j] else db.components)
    ensures Apply(db, SetStatus(t, status)) == db.(tickets := db.tickets[t := status])
  {
    assert id !in db.components ==> (map j | j in db.components && j != id :: db.components[j]) == db.components;
  }

  // ---- Bulk saves are all or nothing ---------------------------------------

  ghost predicate DistinctWrites(writes: seq<BulkWrite>) {
    forall i, j :: 0 <= i < j < |writes| ==> writes[i].id != writes[j].id
  }

  function StaleIn(db: Records, writes: seq<BulkWrite>): seq<nat> {
    if writes == [] then []
    else
      var w := writes[|writes| - 1];
      StaleIn(db, writes[..|writes| - 1]) + (if Matches(db, w) then [] else [w.id])
  }

  /** What one bulk write leaves in its component's row. */
  function Written(c: Component, w: BulkWrite): Component {
    var c1 := c.(actualMassKg := Some(w.actualMassKg), actualVersion := c.actualVersion + 1);
    if w.moisturePct.Some? then c1.(moisturePct := w.moisturePct, moistureVersion := c1.moistureVersion + 1) else c1
  }

  /** d is db with every matching write of `writes` in its own row, and nothing else changed. */
  ghost predicate Applied(db: Records, writes: seq<BulkWrite>, d: Records) {
    && d.tickets == db.tickets && d.components.Keys == db.components.Keys
    && (forall id :: id in db.components && (forall i :: 0 <= i < |writes| ==> writes[i].id != id) ==> d.components[id] == db.components[id])
    && (forall i :: 0 <= i < |writes| && Matches(db, writes[i]) ==> d.components[writes[i].id] == Written(db.components[writes[i].id], writes[i]))
  }

  lemma OneWriteApplied(d: Records, w: BulkWrite)
    requires Matches(d, w)
    ensures ApplyBulkWrite(d, w).tickets == d.tickets
    ensures ApplyBulkWrite(d, w).components == d.components[w.id := Written(d.components[w.id], w)]
  {}

  lemma AppliedNext(db: Records, writes: seq<BulkWrite>, d: Records)
    requires writes != [] && DistinctWrites(writes) && Applied(db, writes[..|writes| - 1], d)
    ensures var w := writes[|writes| - 1];
            && (Matches(d, w) <==> Matches(db, w))
            && Applied(db, writes, if Matches(d, w) then ApplyBulkWrite(d, w) else d)
  {
    hide ApplyBulkWrite, Written;
    var rest, w := writes[..|writes| - 1], writes[|writes| - 1];
    assert forall i :: 0 <= i < |rest| ==> rest[i] == writes[i] && rest[i].id != w.id;
    if Matches(d, w) { OneWriteApplied(d, w); }
  }

  lemma {:induction false} ApplyAllIsPointwise(db: Records, writes: seq<BulkWrite>)
    requires DistinctWrites(writes)
    ensures ApplyAll(db, writes).1 == StaleIn(db, writes)
    ensures Applied(db, writes, ApplyAll(db, writes).0)
  {
    hide ApplyBulkWrite, Written, Matches;
    if writes != [] {
      var rest := writes[..|writes| - 1];
      ApplyAllIsPointwise(db, rest);
      AppliedNext(db, writes, ApplyAll(db, rest).0);
      hide Applied;
      assert StaleIn(db, rest) + [] == StaleIn(db, rest);
    }
  }

  lemma {:induction false} StaleInEmpty(db: Records, writes: seq<BulkWrite>)
    ensures StaleIn(db, writes) == [] <==> forall i :: 0 <= i < |writes| ==> Matches(db, writes[i])
  {
    if writes != [] {
      var rest := writes[..|writes| - 1];
      StaleInEmpty(db, rest);
      assert forall i :: 0 <= i < |rest| ==> rest[i] == writes[i];
    }
  }

  /** The component still has both versions the write was rendered with. */
  predicate Unchanged(db: Records, w: BulkWrite) {
    w.id in db.components && w.expectedActualVersion == db.components[w.id].actualVersion
    && w.expectedMoistureVersion == db.components[w.id].moistureVersion
  }

  /**
   A bulk save over distinct components is accepted exactly when the ticket is
   not finished and every component still has both versions it was rendered with;
   then every component carries its write, in its next versions, and no other
   changes. Otherwise not one row changes, and the stale ones are named.
   */
  lemma BulkIsAllOrNothing(db: Records, ticketId: nat, writes: seq<BulkWrite>)
    requires DistinctWrites(writes)
    ensures var (db', r) := RecordActuals(db, ticketId, writes);
            && (r.BulkOk? <==> Unfinished(db, ticketId) && forall i :: 0 <= i < |writes| ==> Unchanged(db, writes[i]))
            && (r.BulkTerminal? <==> !Unfinished(db, ticketId))
            && (r.BulkOk? ==>
                  && db'.tickets == db.tickets[ticketId := Batching] && db'.components.Keys == db.components.Keys
                  && (forall i :: 0 <= i < |writes| ==>
                        var (was, now, w) := (db.components[writes[i].id], db'.components[writes[i].id], writes[i]);
                        && now.ticketId == was.ticketId
                        && now.actualMassKg == Some(w.actualMassKg) && now.actualVersion == w.expectedActualVersion + 1
                        && now.moisturePct == (if w.moisturePct.Some? then w.moisturePct else was.moisturePct)
                        && now.moistureVersion == w.expectedMoistureVersion + (if w.moisturePct.Some? then 1 else 0))
                  && (forall id :: id in db.components && (forall i :: 0 <= i < |writes| ==> writes[i].id != id) ==> db'.components[id] == db.components[id]))
            && (!r.BulkOk? ==> db' == db)
            && (r.BulkStale? ==> forall id :: id in r.staleIds <==> exists i :: 0 <= i < |writes| && writes[i].id == id && !Unchanged(db, writes[i]))
  {
    var claimed := db.(tickets := db.tickets[ticketId := Batching]);
    ApplyAllIsPointwise(claimed, writes);
    StaleInEmpty(claimed, writes);
    StaleInSameComponents(db, claimed, writes);
    forall i | 0 <= i < |writes| ensures Matches(claimed, writes[i]) <==> Unchanged(db, writes[i]) {}
    StaleInNames(db, writes);
  }

  lemma {:induction false} StaleInNames(db: Records, writes: seq<BulkWrite>)
    ensures forall id :: id in StaleIn(db, writes) <==> exists i :: 0 <= i < |writes| && writes[i].id == id && !Unchanged(db, writes[i])
  {
    if writes != [] {
      var n := |writes| - 1;
      StaleInNames(db, writes[..n]);
      forall id ensures id in StaleIn(db, writes) <==> exists i :: 0 <= i < |writes| && writes[i].id == id && !Unchanged(db, writes[i]) {
        if id in StaleIn(db, writes[..n]) {
          var i :| 0 <= i < n && writes[..n][i].id == id && !Unchanged(db, writes[..n][i]);
          assert writes[i].id == id && !Unchanged(db, writes[i]);
        }
        if exists i :: 0 <= i < |writes| && writes[i].id == id && !Unchanged(db, writes[i]) {
          var i :| 0 <= i < |writes| && writes[i].id == id && !Unchanged(db, writes[i]);
          if i < n { assert writes[..n][i] == writes[i]; }
        }
      }
    }
  }

  lemma {:induction false} StaleInSameComponents(db: Records, db': Records, writes: seq<BulkWrite>)
    requires db.components == db'.components
    ensures StaleIn(db, writes) == StaleIn(db', writes)
  {
    if writes != [] { StaleInSameComponents(db, db', writes[..|writes| - 1]); }
  }

  /**
   Sibling fields never conflict: saving one field changes neither the answer
   nor the effect of saving the other, in either order.
   */
  lemma SiblingSavesCommute(db: Records, t: nat, id: nat, a: real, ea: nat, m: real, em: nat)
    ensures var (db1, r1) := RecordField(db, t, id, Actual, a, ea);
            var (db2, r2) := RecordField(db, t, id, Moisture, m, em);
            && RecordField(db1, t, id, Moisture, m, em).1 == r2
            && RecordField(db2, t, id, Actual, a, ea).1 == r1
            && RecordField(db1, t, id, Moisture, m, em).0.components == RecordField(db2, t, id, Actual, a, ea).0.components
  {
    var db1 := RecordField(db, t, id, Actual, a, ea).0;
    var db2 := RecordField(db, t, id, Moisture, m, em).0;
    if id in db.components {
      assert RecordField(db1, t, id, Moisture, m, em).0.components[id] == RecordField(db2, t, id, Actual, a, ea).0.components[id];
    }
  }
}
