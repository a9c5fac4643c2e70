/**
 The stock ledger: a clamped level per store and one row per posted movement.
 Quantities are exact reals; EPSILON is the code's own tolerance.
 */
module InventoryLedger {
  import opened Wrappers
  import opened Numbers

  const EPSILON: real := 0.000001

  type StorageId = nat
  type MaterialId = nat

  datatype Storage = Storage(level: real, capacity: Option<real>)

  datatype Source = FromTicket | FromTrip
  datatype Movement = BatchCompletion | CompletionReversal | ReclaimCredit

  /** The ledger's unique key. */
  datatype Key = Key(source: Source, sourceId: nat, movement: Movement, materialId: MaterialId, storageId: StorageId)

  datatype Row = Row(key: Key, quantity: real)

  /** `unrecorded` counts, per store, the posts whose effect was too small for a row; nothing reads it. */
  datatype Stock = Stock(stores: map<StorageId, Storage>, rows: seq<Row>, unrecorded: map<StorageId, nat>)

  datatype PostResult =
    | Posted(applied: real, newLevel: real, shortfallAllowed: real)
    | AlreadyPosted
    | StorageNotConfigured
    | InsufficientStock
    | CapacityExceeded

  /** LEAST(capacity, GREATEST(0, level + delta)), without the LEAST where there is no capacity. */
  function Clamped(s: Storage, delta: real): real {
    var floored := Max(0.0, s.level + delta);
    if s.capacity.Some? then Min(s.capacity.value, floored) else floored
  }

  predicate HasRow(rows: seq<Row>, key: Key) {
    exists i :: 0 <= i < |rows| && rows[i].key == key
  }

  function Unrecorded(st: Stock, s: StorageId): nat {
    if s in st.unrecorded then st.unrecorded[s] else 0
  }

  /** One movement. A refusal is a thrown error in the code, so it leaves nothing behind. */
  function Post(st: Stock, key: Key, quantity: real, maxAllowed: real): (Stock, PostResult) {
    if HasRow(st.rows, key) then (st, AlreadyPosted)
    else if key.storageId !in st.stores then (st, StorageNotConfigured)
    else
      var s := st.stores[key.storageId];
      var newLevel := Clamped(s, quantity);
      var applied := newLevel - s.level;
      var shortfall := Abs(quantity) - Abs(applied);
      if quantity < 0.0 && shortfall > Max(0.0, maxAllowed) + EPSILON then (st, InsufficientStock)
      else if !(quantity < 0.0) && shortfall > EPSILON then (st, CapacityExceeded)
      else
        var st1 := st.(stores := st.stores[key.storageId := s.(level := newLevel)]);
        var letThrough := if quantity < 0.0 then Max(0.0, shortfall) else 0.0;
        if Abs(applied) < EPSILON then
          (st1.(unrecorded := st.unrecorded[key.storageId := Unrecorded(st, key.storageId) + 1]), Posted(0.0, newLevel, letThrough))
        else (st1.(rows := st.rows + [Row(key, applied)]), Posted(applied, newLevel, letThrough))
  }

  /** Where a level ends up: never below nothing, never above capacity. */
  function LevelAfter(s: Storage, quantity: real): real {
    var moved := if s.level + quantity < 0.0 then 0.0 else s.level + quantity;
    if s.capacity.Some? && s.capacity.value < moved then s.capacity.value else moved
  }

  /**
   A movement goes through exactly when it is new, its store exists, and what does
   not fit is within 0.000001, or for a withdrawal within that of what was
   allowed. It then moves the level, and leaves a row of what it moved unless that
   is less than 0.000001. Otherwise nothing changes.
   */
  lemma PostsExactlyWhen(st: Stock, key: Key, quantity: real, maxAllowed: real)
    ensures var (st', r) := Post(st, key, quantity, maxAllowed);
            var known := exists i :: 0 <= i < |st.rows| && st.rows[i].key == key;
            && (r.AlreadyPosted? <==> known)
            && (r.StorageNotConfigured? <==> !known && key.storageId !in st.stores)
            && (!r.Posted? ==> st' == st)
            && (!known && key.storageId in st.stores ==>
                  var s := st.stores[key.storageId];
                  var level := LevelAfter(s, quantity);
                  var missing := Abs(quantity) - Abs(level - s.level);
                  && (r.InsufficientStock? <==> quantity < 0.0 && missing > 0.000001 + (if maxAllowed > 0.0 then maxAllowed else 0.0))
                  && (r.CapacityExceeded? <==> quantity >= 0.0 && missing > 0.000001)
                  && (r.Posted? ==>
                        && st'.stores == st.stores[key.storageId := s.(level := level)] && r.newLevel == level
                        && st'.rows == st.rows + (if Abs(level - s.level) < 0.000001 then [] else [Row(key, level - s.level)])
                        && r.applied == (if Abs(level - s.level) < 0.000001 then 0.0 else level - s.level)
                        && r.shortfallAllowed == (if quantity < 0.0 && missing > 0.0 then missing else 0.0)))
  {
  }

  // ---- Bounds and conservation of one post ---------------------------------------

  predicate InBounds(s: Storage) {
    0.0 <= s.level && (s.capacity.Some? ==> s.level <= s.capacity.value)
  }

  ghost predicate AllInBounds(st: Stock) {
    forall s :: s in st.stores ==> InBounds(st.stores[s])
  }

  /** The ledger's own account of a store: the sum of its rows. */
  function RowSum(rows: seq<Row>, s: StorageId): real {
    if rows == [] then 0.0
    else RowSum(rows[..|rows| - 1], s) + (if rows[|rows| - 1].key.storageId == s then rows[|rows| - 1].quantity else 0.0)
  }

  /** Each store has moved from its opening level by its rows, give or take EPSILON per unrecorded post. */
  ghost predicate Conserves(opening: Stock, st: Stock) {
    && st.stores.Keys == opening.stores.Keys
    && forall s :: s in st.stores ==>
         && Unrecorded(opening, s) <= Unrecorded(st, s)
         && Abs((st.stores[s].level - opening.stores[s].level) - (RowSum(st.rows, s) - RowSum(opening.rows, s)))
            <= EPSILON * (Unrecorded(st, s) - Unrecorded(opening, s)) as real
         && st.stores[s].capacity == opening.stores[s].capacity
  }

  lemma PostConserves(st: Stock, key: Key, quantity: real, maxAllowed: real)
    ensures Conserves(st, Post(st, key, quantity, maxAllowed).0)
    ensures AllInBounds(st) ==> AllInBounds(Post(st, key, quantity, maxAllowed).0)
    ensures st.rows <= Post(st, key, quantity, maxAllowed).0.rows
  {
    var st' := Post(st, key, quantity, maxAllowed).0;
    if st' != st && |st'.rows| > |st.rows| { assert st'.rows[..|st'.rows| - 1] == st.rows; }
  }

  lemma ConservesTransitive(a: Stock, b: Stock, c: Stock)
    requires Conserves(a, b) && Conserves(b, c)
    ensures Conserves(a, c)
  {
    forall s | s in c.stores
      ensures Abs((c.stores[s].level - a.stores[s].level) - (RowSum(c.rows, s) - RowSum(a.rows, s)))
              <= EPSILON * (Unrecorded(c, s) - Unrecorded(a, s)) as real
      ensures Unrecorded(a, s) <= Unrecorded(c, s)
    {
      var m, n := Unrecorded(b, s) - Unrecorded(a, s), Unrecorded(c, s) - Unrecorded(b, s);
      assert EPSILON * (m + n) as real == EPSILON * m as real + EPSILON * n as real;
    }
  }

  /**
   What a credit leaves in the ledger. In bounds, a credit that goes through is
   applied up to EPSILON; its row differs from it by at most EPSILON exactly when
   the store has EPSILON of room or the credit is no more than EPSILON, and
   otherwise no row is written at all.
   */
  lemma CreditRecorded(st: Stock, key: Key, quantity: real)
    requires AllInBounds(st) && 0.0 < quantity
    requires Post(st, key, quantity, 0.0).1.Posted?
    ensures var r := Post(st, key, quantity, 0.0).1;
            var s := st.stores[key.storageId];
            && 0.0 <= quantity - r.applied < 2.0 * EPSILON
            && (quantity - r.applied <= EPSILON
                <==> s.capacity.None? || EPSILON <= s.capacity.value - s.level || quantity <= EPSILON)
            && (2.0 * EPSILON <= quantity ==> quantity - r.applied <= EPSILON)
  {
  }

  ghost predicate UniqueKeys(rows: seq<Row>) {
    forall i, j :: 0 <= i < j < |rows| ==> rows[i].key != rows[j].key
  }

  /** What the ledger holds under a key, nothing if there is no such row. */
  function QuantityOf(rows: seq<Row>, key: Key): real {
    if rows == [] then 0.0 else if rows[0].key == key then rows[0].quantity else QuantityOf(rows[1..], key)
  }

  lemma {:induction false} QuantityOfExtended(rows: seq<Row>, more: seq<Row>, key: Key)
    ensures HasRow(rows, key) ==> QuantityOf(rows + more, key) == QuantityOf(rows, key)
    ensures !HasRow(rows, key) ==> QuantityOf(rows, key) == 0.0 && QuantityOf(rows + more, key) == QuantityOf(more, key)
  {
    if rows == [] {
      assert rows + more == more;
    } else {
      assert (rows + more)[1..] == rows[1..] + more;
      QuantityOfExtended(rows[1..], more, key);
      assert HasRow(rows, key) <==> rows[0].key == key || HasRow(rows[1..], key) by {
        if HasRow(rows, key) && rows[0].key != key {
          var i :| 0 <= i < |rows| && rows[i].key == key;
          assert rows[1..][i - 1].key == key;
        }
        if HasRow(rows[1..], key) {
          var i :| 0 <= i < |rows[1..]| && rows[1..][i].key == key;
          assert rows[i + 1].key == key;
        }
      }
    }
  }

  /** A credit of this quantity has landed: in full, but for a loss under the tolerance. */
  ghost predicate Recorded(rows: seq<Row>, key: Key, quantity: real) {
    var loss := quantity - QuantityOf(rows, key);
    0.0 <= loss < 2.0 * EPSILON && (quantity <= EPSILON || 2.0 * EPSILON <= quantity ==> loss <= EPSILON)
  }

  /** Bounds are needed: above capacity a credit can take stock away, and is recorded as doing so. */
  lemma CreditAboveCapacityIsNegative()
    ensures var st := Stock(map[0 := Storage(120.0, Some(100.0))], [], map[]);
            var key := Key(FromTicket, 1, CompletionReversal, 1, 0);
            Post(st, key, 5.0, 0.0).1 == Posted(-20.0, 100.0, 0.0)
  {
  }

  /** The table and the level columns, posted to in place. */
  class Ledger {
    var stores: map<StorageId, Storage>
    var rows: seq<Row>
    ghost var unrecorded: map<StorageId, nat>

    ghost function State(): Stock
      reads this
    {
      Stock(stores, rows, unrecorded)
    }

    constructor (stores: map<StorageId, Storage>)
      ensures State() == Stock(stores, [], map[])
    {
      this.stores, rows, unrecorded := stores, [], map[];
    }

    method AlreadyThere(key: Key) returns (found: bool)
      ensures found == HasRow(rows, key)
    {
      var i := 0;
      while i < |rows|
        invariant 0 <= i <= |rows|
        invariant forall j :: 0 <= j < i ==> rows[j].key != key
      {
        if rows[i].key == key { return true; }
        i := i + 1;
      }
      return false;
    }

    method PostMovement(key: Key, quantity: real, maxAllowed: real) returns (r: PostResult)
      modifies this
      ensures (State(), r) == Post(old(State()), key, quantity, maxAllowed)
      ensures !r.Posted? ==> State() == old(State())
    {
      var there := AlreadyThere(key);
      if there { return AlreadyPosted; }
      if key.storageId !in stores { return StorageNotConfigured; }
      var before := stores;
      var s := stores[key.storageId];
      var newLevel := Clamped(s, quantity);
      stores := stores[key.storageId := s.(level := newLevel)];
      var applied := newLevel - s.level;
      var shortfall := Abs(quantity) - Abs(applied);
      if quantity < 0.0 && shortfall > Max(0.0, maxAllowed) + EPSILON {
        stores := before;
        return InsufficientStock;
      }
      if !(quantity < 0.0) && shortfall > EPSILON {
        stores := before;
        return CapacityExceeded;
      }
      var letThrough := if quantity < 0.0 then Max(0.0, shortfall) else 0.0;
      if Abs(applied) < EPSILON {
        unrecorded := unrecorded[key.storageId := Unrecorded(State(), key.storageId) + 1];
        return Posted(0.0, newLevel, letThrough);
      }
      rows := rows + [Row(key, applied)];
      return Posted(applied, newLevel, letThrough);
    }
  }
}
