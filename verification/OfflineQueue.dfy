/**
 The stored offline queue that browser tabs share. Every operation here is what
 runs while the web lock is held: one read of the stored state, one change, one
 write back. `Disk` says whether that read and that write succeed.
 */
module OfflineQueue {
  import opened Wrappers
  import opened ComponentEdits

  type Owner = nat
  type ItemId = nat

  const LEASE_MS := 60_000

  /** What the operator typed, and what Number() makes of it (None when not finite). */
  datatype Raw = Raw(text: string, number: Option<real>)

  /** The identity part of a queued action's fields: everything but value and expectedVersion. */
  datatype Target = Target(ticketId: nat, componentId: nat, which: Which)

  datatype Item = Item(
    id: ItemId, target: Target, raw: Raw, expectedVersion: nat,
    generation: nat, leaseOwner: Option<Owner>, leaseExpiresAt: Option<int>)

  datatype RejectedItem = RejectedItem(item: Item, reason: string)

  datatype Store = Store(pending: seq<Item>, rejected: seq<RejectedItem>)

  datatype Disk = Disk(readOk: bool, writeOk: bool)

  datatype Outcome = Applied(version: Option<nat>) | Retryable | Rejected(reason: string)

  datatype Remembered = Remembered(generation: nat, outcome: Outcome, version: Option<nat>)

  datatype EnqueueResult = EnqueueOk(item: Item) | EnqueueUnavailable
  datatype ClaimResult = ClaimOk(item: Item) | ClaimSkip | ClaimUnavailable
  datatype AdoptResult = Rebased(item: Item) | AdoptSkip | AdoptUnavailable
  datatype Settlement = Settled | Superseded | Gone | LeaseLost | SettleUnavailable

  // ---- Lists ---------------------------------------------------------------

  function Lookup(pending: seq<Item>, id: ItemId): Option<Item> {
    if pending == [] then None
    else if pending[0].id == id then Some(pending[0])
    else Lookup(pending[1..], id)
  }

  /** findIndex by logical key; the length of the list when there is none. */
  function IndexOfTarget(pending: seq<Item>, target: Target): (i: nat)
    ensures i <= |pending|
    ensures i < |pending| ==> pending[i].target == target
    ensures forall j :: 0 <= j < i ==> pending[j].target != target
  {
    if pending == [] then 0
    else if pending[0].target == target then 0
    else 1 + IndexOfTarget(pending[1..], target)
  }

  /** map(i => i.id === id ? with : i) */
  function Replaced(pending: seq<Item>, id: ItemId, with: Item): seq<Item> {
    if pending == [] then []
    else [if pending[0].id == id then with else pending[0]] + Replaced(pending[1..], id, with)
  }

  function Without(pending: seq<Item>, id: ItemId): seq<Item> {
    if pending == [] then []
    else if pending[0].id == id then Without(pending[1..], id)
    else [pending[0]] + Without(pending[1..], id)
  }

  function RejectedWithout(rejected: seq<RejectedItem>, id: ItemId): seq<RejectedItem> {
    if rejected == [] then []
    else if rejected[0].item.id == id then RejectedWithout(rejected[1..], id)
    else [rejected[0]] + RejectedWithout(rejected[1..], id)
  }

  // ---- Operations ----------------------------------------------------------

  function EnqueueStep(s: Store, newId: ItemId, target: Target, raw: Raw, expected: nat, disk: Disk): (Store, EnqueueResult) {
    if !disk.readOk then (s, EnqueueUnavailable)
    else
      var i := IndexOfTarget(s.pending, target);
      var item := if i < |s.pending|
                  then s.pending[i].(raw := raw, generation := s.pending[i].generation + 1)
                  else Item(newId, target, raw, expected, 0, None, None);
      if !disk.writeOk then (s, EnqueueUnavailable)
      else if i < |s.pending| then (s.(pending := s.pending[i := item]), EnqueueOk(item))
      else (s.(pending := s.pending + [item]), EnqueueOk(item))
  }

  function DismissStep(s: Store, id: ItemId, disk: Disk): Store {
    if disk.readOk && disk.writeOk then s.(rejected := RejectedWithout(s.rejected, id)) else s
  }

  predicate HeldByAnother(item: Item, owner: Owner, now: nat) {
    item.leaseOwner.Some? && item.leaseOwner.value != owner
    && (if item.leaseExpiresAt.Some? then item.leaseExpiresAt.value else 0) > now
  }

  function ClaimStep(s: Store, owner: Owner, id: ItemId, now: nat, disk: Disk): (Store, ClaimResult) {
    if !disk.readOk then (s, ClaimUnavailable)
    else
      var current := Lookup(s.pending, id);
      if current.None? || HeldByAnother(current.value, owner, now) then (s, ClaimSkip)
      else if !disk.writeOk then (s, ClaimUnavailable)
      else
        var claimed := current.value.(leaseOwner := Some(owner), leaseExpiresAt := Some(now + LEASE_MS));
        (s.(pending := Replaced(s.pending, id, claimed)), ClaimOk(claimed))
  }

  function AdoptStep(s: Store, owner: Owner, id: ItemId, version: nat, disk: Disk): (Store, AdoptResult) {
    if !disk.readOk then (s, AdoptUnavailable)
    else
      var current := Lookup(s.pending, id);
      if current.None? || current.value.leaseOwner != Some(owner) then (s, AdoptSkip)
      else if current.value.expectedVersion == version then (s, Rebased(current.value))
      else if !disk.writeOk then (s, AdoptUnavailable)
      else
        var rebased := current.value.(expectedVersion := version);
        (s.(pending := Replaced(s.pending, id, rebased)), Rebased(rebased))
  }

  function ReleaseStep(s: Store, owner: Owner, snapshot: Item, disk: Disk): Store {
    if !disk.readOk || !disk.writeOk then s
    else
      var current := Lookup(s.pending, snapshot.id);
      if current.None? || current.value.leaseOwner != Some(owner) || current.value.generation != snapshot.generation then s
      else s.(pending := Replaced(s.pending, snapshot.id, current.value.(leaseOwner := None, leaseExpiresAt := None)))
  }

  function SettleStep(s: Store, owner: Owner, snapshot: Item, outcome: Outcome, disk: Disk): (Store, Settlement) {
    if !disk.readOk then (s, SettleUnavailable)
    else
      var current := Lookup(s.pending, snapshot.id);
      if current.None? then (s, Gone)
      else if current.value.leaseOwner.Some? && current.value.leaseOwner != Some(owner) then (s, LeaseLost)
      else if !disk.writeOk then (s, SettleUnavailable)
      else if current.value.generation != snapshot.generation then
        var expected := if outcome.Applied? && outcome.version.Some? then outcome.version.value else current.value.expectedVersion;
        var kept := current.value.(expectedVersion := expected, leaseOwner := None, leaseExpiresAt := None);
        (s.(pending := Replaced(s.pending, snapshot.id, kept)), Superseded)
      else
        (Store(Without(s.pending, snapshot.id),
               if outcome.Rejected? then s.rejected + [RejectedItem(snapshot, outcome.reason)] else s.rejected),
         Settled)
  }

  // ---- The server's answer, read as a replay outcome -------------------------

  datatype Answer = AnswerOk(version: nat) | AnswerStale(currentVersion: nat, currentValue: Option<real>) | AnswerRefused(reason: string)

  predicate Blank(text: string) {
    forall i :: 0 <= i < |text| ==> text[i] in {' ', '\t', '\n', '\r'}
  }

  predicate SameFiniteReading(raw: Raw, current: Option<real>) {
    current.Some? && !Blank(raw.text) && raw.number == current
  }

  function ToReplayOutcome(answer: Answer, raw: Raw): Outcome {
    match answer
    case AnswerOk(v) => Applied(Some(v))
    case AnswerStale(v, current) => if SameFiniteReading(raw, current) then Applied(Some(v)) else Rejected("STALE_READING")
    case AnswerRefused(reason) => Rejected(reason)
  }

  const MOISTURE_PCT_MAX := 100.0

  /** The form's own value checks, then the versioned write. */
  function RecordReading(db: Records, target: Target, raw: Raw, expected: nat): (Records, Answer) {
    if |raw.text| == 0 then (db, AnswerRefused("MISSING_FIELDS"))
    else if raw.number.None? || raw.number.value < 0.0 || (target.which.Moisture? && raw.number.value > MOISTURE_PCT_MAX) then
      (db, AnswerRefused("INVALID_VALUE"))
    else if target.componentId !in db.components || db.components[target.componentId].ticketId != target.ticketId then
      (db, AnswerRefused("NOT_FOUND"))
    else
      var (db', r) := RecordField(db, target.ticketId, target.componentId, target.which, raw.number.value, expected);
      (db', match r
            case Ok(v) => AnswerOk(v)
            case Terminal => AnswerRefused("TERMINAL")
            case StaleReading(v, current) => AnswerStale(v, current))
  }

  // ---- The objects -----------------------------------------------------------

  /** The browser's storage for one identity's partition, shared by every tab. */
  class LocalStorage {
    var pending: seq<Item>
    var rejected: seq<RejectedItem>

    constructor ()
      ensures pending == [] && rejected == []
    {
      pending, rejected := [], [];
    }

    function Contents(): Store
      reads this
    {
      Store(pending, rejected)
    }
  }

  /** One tab's queue instance: a lease owner, and the applied results it could not store. */
  class Tab {
    const storage: LocalStorage
    const ownerId: Owner
    var unsettledApplied: map<ItemId, Remembered>

    constructor (storage: LocalStorage, ownerId: Owner)
      ensures this.storage == storage && this.ownerId == ownerId && unsettledApplied == map[]
    {
      this.storage, this.ownerId, unsettledApplied := storage, ownerId, map[];
    }

    method Enqueue(newId: ItemId, target: Target, raw: Raw, expected: nat, disk: Disk) returns (r: EnqueueResult)
      modifies storage
      ensures (storage.Contents(), r) == EnqueueStep(old(storage.Contents()), newId, target, raw, expected, disk)
    {
      if !disk.readOk { return EnqueueUnavailable; }
      var i := 0;
      while i < |storage.pending| && storage.pending[i].target != target
        invariant 0 <= i <= |storage.pending|
        invariant forall j :: 0 <= j < i ==> storage.pending[j].target != target
      {
        i := i + 1;
      }
      assert i == IndexOfTarget(storage.pending, target);
      if !disk.writeOk { return EnqueueUnavailable; }
      if i < |storage.pending| {
        var existing := storage.pending[i];
        var merged := existing.(raw := raw, generation := existing.generation + 1);
        storage.pending := storage.pending[i := merged];
        return EnqueueOk(merged);
      }
      var item := Item(newId, target, raw, expected, 0, None, None);
      storage.pending := storage.pending + [item];
      return EnqueueOk(item);
    }

    method DismissRejected(id: ItemId, disk: Disk)
      modifies storage
      ensures storage.Contents() == DismissStep(old(storage.Contents()), id, disk)
    {
      if disk.readOk && disk.writeOk { storage.rejected := RejectedWithout(storage.rejected, id); }
    }

    method ClaimForReplay(id: ItemId, now: nat, disk: Disk) returns (r: ClaimResult)
      modifies storage
      ensures (storage.Contents(), r) == ClaimStep(old(storage.Contents()), ownerId, id, now, disk)
    {
      if !disk.readOk { return ClaimUnavailable; }
      var current := Lookup(storage.pending, id);
      if current.None? { return ClaimSkip; }
      if HeldByAnother(current.value, ownerId, now) { return ClaimSkip; }
      var claimed := current.value.(leaseOwner := Some(ownerId), leaseExpiresAt := Some(now + LEASE_MS));
      if !disk.writeOk { return ClaimUnavailable; }
      storage.pending := Replaced(storage.pending, id, claimed);
      return ClaimOk(claimed);
    }

    method AdoptVersion(id: ItemId, version: nat, disk: Disk) returns (r: AdoptResult)
      modifies storage
      ensures (storage.Contents(), r) == AdoptStep(old(storage.Contents()), ownerId, id, version, disk)
    {
      if !disk.readOk { return AdoptUnavailable; }
      var current := Lookup(storage.pending, id);
      if current.None? || current.value.leaseOwner != Some(ownerId) { return AdoptSkip; }
      if current.value.expectedVersion == version { return Rebased(current.value); }
      var rebased := current.value.(expectedVersion := version);
      if !disk.writeOk { return AdoptUnavailable; }
      storage.pending := Replaced(storage.pending, id, rebased);
      return Rebased(rebased);
    }

    method ReleaseClaim(snapshot: Item, disk: Disk)
      modifies storage
      ensures storage.Contents() == ReleaseStep(old(storage.Contents()), ownerId, snapshot, disk)
    {
      if !disk.readOk { return; }
      var current := Lookup(storage.pending, snapshot.id);
      if current.None? || current.value.leaseOwner != Some(ownerId) || current.value.generation != snapshot.generation { return; }
      if disk.writeOk {
        storage.pending := Replaced(storage.pending, snapshot.id, current.value.(leaseOwner := None, leaseExpiresAt := None));
      }
    }

    /** settleReplay, with the flush loop's bookkeeping of a result that could not be stored. */
    method SettleReplay(snapshot: Item, outcome: Outcome, disk: Disk) returns (r: Settlement)
      modifies storage, this
      ensures (storage.Contents(), r) == SettleStep(old(storage.Contents()), ownerId, snapshot, outcome, disk)
      ensures unsettledApplied == RememberStep(old(unsettledApplied), snapshot, outcome, r)
    {
      r := Gone;
      var current := Lookup(storage.pending, snapshot.id);
      if !disk.readOk {
        r := SettleUnavailable;
      } else if current.Some? {
        if current.value.leaseOwner.Some? && current.value.leaseOwner != Some(ownerId) {
          r := LeaseLost;
        } else if !disk.writeOk {
          r := SettleUnavailable;
        } else if current.value.generation != snapshot.generation {
          var kept := current.value.(leaseOwner := None, leaseExpiresAt := None);
          if outcome.Applied? && outcome.version.Some? { kept := kept.(expectedVersion := outcome.version.value); }
          storage.pending := Replaced(storage.pending, snapshot.id, kept);
          r := Superseded;
        } else {
          storage.pending := Without(storage.pending, snapshot.id);
          if outcome.Rejected? { storage.rejected := storage.rejected + [RejectedItem(snapshot, outcome.reason)]; }
          r := Settled;
        }
      }
      if r == SettleUnavailable {
        if outcome.Applied? {
          unsettledApplied := unsettledApplied[snapshot.id := Remembered(snapshot.generation, outcome, outcome.version)];
        }
      } else {
        unsettledApplied := unsettledApplied - {snapshot.id};
      }
    }
  }

  function RememberStep(m: map<ItemId, Remembered>, snapshot: Item, outcome: Outcome, r: Settlement): map<ItemId, Remembered> {
    if r == SettleUnavailable then
      if outcome.Applied? then m[snapshot.id := Remembered(snapshot.generation, outcome, outcome.version)] else m
    else m - {snapshot.id}
  }

  // ---- Facts about the lists ---------------------------------------------------

  ghost predicate DistinctIds(pending: seq<Item>) {
    forall i, j :: 0 <= i < j < |pending| ==> pending[i].id != pending[j].id
  }

  lemma {:induction false} LookupFinds(pending: seq<Item>, id: ItemId)
    ensures Lookup(pending, id).Some? ==> Lookup(pending, id).value in pending && Lookup(pending, id).value.id == id
    ensures Lookup(pending, id).None? <==> forall i :: 0 <= i < |pending| ==> pending[i].id != id
  {
    if pending != [] { LookupFinds(pending[1..], id); }
  }

  lemma {:induction false} LookupIsTheItem(pending: seq<Item>, i: nat)
    requires DistinctIds(pending) && i < |pending|
    ensures Lookup(pending, pending[i].id) == Some(pending[i])
  {
    if i > 0 { LookupIsTheItem(pending[1..], i - 1); }
  }

  lemma {:induction false} LookupReplaced(pending: seq<Item>, id: ItemId, with: Item, j: ItemId)
    requires with.id == id
    ensures Lookup(Replaced(pending, id, with), j) ==
            if j == id && Lookup(pending, id).Some? then Some(with) else Lookup(pending, j)
  {
    if pending != [] { LookupReplaced(pending[1..], id, with, j); }
  }

  /** A claim goes through exactly while no other tab has a live lease, and lasts a minute; otherwise nothing changes. */
  lemma ClaimsExactlyWhenFree(s: Store, owner: Owner, id: ItemId, now: nat, disk: Disk)
    ensures var (s', r) := ClaimStep(s, owner, id, now, disk);
            var was := Lookup(s.pending, id);
            var free := was.Some? && (was.value.leaseOwner == None || was.value.leaseOwner == Some(owner)
                                      || was.value.leaseExpiresAt == None || was.value.leaseExpiresAt.value <= now);
            && (r.ClaimOk? <==> disk.readOk && disk.writeOk && free)
            && (r.ClaimSkip? <==> disk.readOk && !free)
            && (r.ClaimOk? ==>
                  && r.item == was.value.(leaseOwner := Some(owner), leaseExpiresAt := Some(now + 60_000))
                  && s'.rejected == s.rejected
                  && forall j :: Lookup(s'.pending, j) == if j == id then Some(r.item) else Lookup(s.pending, j))
            && (!r.ClaimOk? ==> s' == s)
  {
    var (s', r) := ClaimStep(s, owner, id, now, disk);
    LookupFinds(s.pending, id);
    if r.ClaimOk? { forall j { LookupReplaced(s.pending, id, r.item, j); } }
  }

  lemma {:induction false} LookupWithout(pending: seq<Item>, id: ItemId, j: ItemId)
    ensures Lookup(Without(pending, id), j) == if j == id then None else Lookup(pending, j)
  {
    if pending != [] { LookupWithout(pending[1..], id, j); }
  }

  lemma {:induction false} LookupAppended(pending: seq<Item>, item: Item, j: ItemId)
    ensures Lookup(pending + [item], j) ==
            if Lookup(pending, j).Some? then Lookup(pending, j) else if j == item.id then Some(item) else None
  {
    if pending == [] {
      assert pending + [item] == [item];
    } else {
      assert (pending + [item])[1..] == pending[1..] + [item];
      LookupAppended(pending[1..], item, j);
    }
  }

  lemma {:induction false} LookupUpdated(pending: seq<Item>, i: nat, item: Item, j: ItemId)
    requires DistinctIds(pending) && i < |pending| && item.id == pending[i].id
    ensures Lookup(pending[i := item], j) == if j == item.id then Some(item) else Lookup(pending, j)
  {
    if i > 0 {
      assert pending[i := item][1..] == pending[1..][i - 1 := item];
      LookupUpdated(pending[1..], i - 1, item, j);
    } else {
      assert pending[i := item][1..] == pending[1..];
      if j == item.id { LookupIsTheItem(pending, 0); }
    }
  }

  lemma {:induction false} ReplacedAt(pending: seq<Item>, id: ItemId, with: Item)
    requires with.id == id
    ensures |Replaced(pending, id, with)| == |pending|
    ensures forall i :: 0 <= i < |pending| ==> Replaced(pending, id, with)[i] == if pending[i].id == id then with else pending[i]
  {
    if pending != [] { ReplacedAt(pending[1..], id, with); }
  }

  lemma {:induction false} WithoutKeepsDistinct(pending: seq<Item>, id: ItemId)
    requires DistinctIds(pending)
    ensures DistinctIds(Without(pending, id))
    ensures forall i :: 0 <= i < |Without(pending, id)| ==> Without(pending, id)[i] in pending
  {
    if pending != [] { WithoutKeepsDistinct(pending[1..], id); }
  }

  lemma {:induction false} RejectedWithoutKeeps(rejected: seq<RejectedItem>, id: ItemId, r: RejectedItem)
    ensures r in RejectedWithout(rejected, id) <==> r in rejected && r.item.id != id
  {
    if rejected != [] { RejectedWithoutKeeps(rejected[1..], id, r); }
  }

  // ---- What each operation comes to ----------------------------------------------

  /** Only the copies of that item leave the list, and only where storage works. */
  lemma DismissesExactly(s: Store, id: ItemId, disk: Disk)
    ensures DismissStep(s, id, disk).pending == s.pending
    ensures forall r :: r in DismissStep(s, id, disk).rejected <==> r in s.rejected && !(disk.readOk && disk.writeOk && r.item.id == id)
  {
    forall r { RejectedWithoutKeeps(s.rejected, id, r); }
  }

  /** A failed read or write leaves everything as it was. */
  lemma EnqueueNeedsStorage(s: Store, newId: ItemId, target: Target, raw: Raw, expected: nat, disk: Disk)
    requires !disk.readOk || !disk.writeOk
    ensures EnqueueStep(s, newId, target, raw, expected, disk) == (s, EnqueueUnavailable)
  {}

  /** Rebasing takes an item under one's own lease, and moves its version and nothing else. */
  lemma AdoptsExactlyWhenHeld(s: Store, owner: Owner, id: ItemId, version: nat, disk: Disk)
    ensures var (s', r) := AdoptStep(s, owner, id, version, disk);
            var was := Lookup(s.pending, id);
            var mine := was.Some? && was.value.leaseOwner == Some(owner);
            && (r.Rebased? <==> disk.readOk && mine && (was.value.expectedVersion == version || disk.writeOk))
            && (r.AdoptSkip? <==> disk.readOk && !mine)
            && (r.Rebased? ==> r.item == was.value.(expectedVersion := version))
            && s'.rejected == s.rejected
            && forall j :: Lookup(s'.pending, j) == if j == id && r.Rebased? then Some(r.item) else Lookup(s.pending, j)
  {
    var (s', r) := AdoptStep(s, owner, id, version, disk);
    LookupFinds(s.pending, id);
    if r.Rebased? { forall j { LookupReplaced(s.pending, id, r.item, j); } }
  }

  /** Giving up takes one's own lease on the very edit that was sent, and clears it. */
  lemma ReleasesExactlyWhenHeld(s: Store, owner: Owner, snapshot: Item, disk: Disk)
    ensures var s' := ReleaseStep(s, owner, snapshot, disk);
            var was := Lookup(s.pending, snapshot.id);
            var gives := disk.readOk && disk.writeOk && was.Some? && was.value.leaseOwner == Some(owner) && was.value.generation == snapshot.generation;
            && s'.rejected == s.rejected
            && forall j :: Lookup(s'.pending, j)
                           == if j == snapshot.id && gives then Some(was.value.(leaseOwner := None, leaseExpiresAt := None)) else Lookup(s.pending, j)
  {
    var was := Lookup(s.pending, snapshot.id);
    LookupFinds(s.pending, snapshot.id);
    if was.Some? { forall j { LookupReplaced(s.pending, snapshot.id, was.value.(leaseOwner := None, leaseExpiresAt := None), j); } }
  }

  /** An item is settled unless it is gone, another tab's, or newer than what was sent; a newer edit stays, at the version its predecessor reached. */
  lemma SettlesExactlyWhen(s: Store, owner: Owner, snapshot: Item, outcome: Outcome, disk: Disk)
    ensures var (s', r) := SettleStep(s, owner, snapshot, outcome, disk);
            var was := Lookup(s.pending, snapshot.id);
            var others := was.Some? && was.value.leaseOwner.Some? && was.value.leaseOwner.value != owner;
            && (r.Gone? <==> disk.readOk && was.None?)
            && (r.LeaseLost? <==> disk.readOk && others)
            && (r.Settled? <==> disk.readOk && disk.writeOk && was.Some? && !others && was.value.generation == snapshot.generation)
            && (r.Superseded? <==> disk.readOk && disk.writeOk && was.Some? && !others && was.value.generation != snapshot.generation)
            && (r.Settled? ==>
                  && (forall j :: Lookup(s'.pending, j) == if j == snapshot.id then None else Lookup(s.pending, j))
                  && s'.rejected == s.rejected + (if outcome.Rejected? then [RejectedItem(snapshot, outcome.reason)] else []))
            && (r.Superseded? ==>
                  && s'.rejected == s.rejected
                  && var version := if outcome.Applied? && outcome.version.Some? then outcome.version.value else was.value.expectedVersion;
                  && var kept := was.value.(expectedVersion := version, leaseOwner := None, leaseExpiresAt := None);
                  && forall j :: Lookup(s'.pending, j) == if j == snapshot.id then Some(kept) else Lookup(s.pending, j))
            && (!r.Settled? && !r.Superseded? ==> s' == s)
  {
    var (s', r) := SettleStep(s, owner, snapshot, outcome, disk);
    var was := Lookup(s.pending, snapshot.id);
    LookupFinds(s.pending, snapshot.id);
    if r.Settled? {
      forall j { LookupWithout(s.pending, snapshot.id, j); }
    } else if r.Superseded? {
      var version := if outcome.Applied? && outcome.version.Some? then outcome.version.value else was.value.expectedVersion;
      forall j { LookupReplaced(s.pending, snapshot.id, was.value.(expectedVersion := version, leaseOwner := None, leaseExpiresAt := None), j); }
    }
  }

  /** A stale answer counts as applied exactly if the number sent is the number held. */
  lemma OutcomesAre(answer: Answer, raw: Raw)
    ensures var outcome := ToReplayOutcome(answer, raw);
            match answer
            case AnswerOk(v) => outcome == Applied(Some(v))
            case AnswerRefused(reason) => outcome == Rejected(reason)
            case AnswerStale(v, current) =>
              var same := current.Some? && raw.number == current && exists i :: 0 <= i < |raw.text| && raw.text[i] !in " \t\r\n";
              outcome == if same then Applied(Some(v)) else Rejected("STALE_READING")
  {}

  /** A reading is taken exactly if it is a number in range, for a component of that ticket, unfinished, at the version held. */
  lemma ReadingsTakenExactly(db: Records, t: Target, raw: Raw, expected: nat)
    ensures var (db', answer) := RecordReading(db, t, raw, expected);
            var inRange := raw.text != "" && raw.number.Some? && 0.0 <= raw.number.value && (t.which == Moisture ==> raw.number.value <= 100.0);
            var known := t.componentId in db.components && db.components[t.componentId].ticketId == t.ticketId;
            && (answer == AnswerRefused("MISSING_FIELDS") <==> raw.text == "")
            && (answer == AnswerRefused("INVALID_VALUE") <==> raw.text != "" && !inRange)
            && (answer == AnswerRefused("NOT_FOUND") <==> inRange && !known)
            && (answer == AnswerRefused("TERMINAL") <==> inRange && known && !Unfinished(db, t.ticketId))
            && (answer.AnswerOk? <==>
                  && inRange && known && Unfinished(db, t.ticketId)
                  && expected == match t.which
                                 case Actual => db.components[t.componentId].actualVersion
                                 case Moisture => db.components[t.componentId].moistureVersion)
            && (answer.AnswerOk? ==> answer.version == expected + 1)
            && (answer.AnswerRefused? ==> db' == db)
            && (answer.AnswerStale? || answer.AnswerOk? ==> db' == RecordField(db, t.ticketId, t.componentId, t.which, raw.number.value, expected).0)
  {
    if raw.number.Some? { SavesExactlyCurrent(db, t.ticketId, t.componentId, t.which, raw.number.value, expected); }
  }
}
