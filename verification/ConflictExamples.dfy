/** Concrete runs: each drops one condition of a quiet run and ends in a false conflict. */
module ConflictExamples {
  import opened Wrappers
  import opened ComponentEdits
  import opened OfflineQueue
  import opened ReplayProtocol
  import opened NoFalseConflict

  const SERVER := Records(map[1 := Released], map[7 := Component(1, None, 0, None, 0)], [])
  const FIELD := Target(1, 7, Actual)
  const STORED := Disk(true, true)
  const LOST := Disk(true, false)

  function Typed(n: nat): Raw { Raw("n", Some(n as real)) }

  function Edit(n: nat): Event { Enqueue(FIELD, Typed(n), 0, STORED) }

  function Row(version: nat, n: nat): Component { Component(1, Some(n as real), version, None, 0) }

  /** A run, and what it has come to: one pending item, the passes, the memories, the component's row. */
  datatype Scene = Scene(
    run: seq<Event>, calm: bool, item: Item, passes: map<FlightId, Flight>,
    memory: map<Owner, map<ItemId, Remembered>>, row: Component)
  {
    ghost predicate Plays() {
      var w := Run(Empty(SERVER), run);
      && w.store.pending == [item] && item.id == 0 && item.target == FIELD
      && w.flights == passes && w.remembered == memory
      && Editable(w.server, 1) && w.server.components == map[7 := row] && row.ticketId == 1
      && (calm ==> CalmRun(Empty(SERVER), run))
    }

    function Edited(n: nat): Scene {
      this.(run := run + [Edit(n)], item := item.(raw := Typed(n), generation := item.generation + 1))
    }

    function Claims(f: FlightId, o: Owner, now: nat): Scene {
      var l := item.(leaseOwner := Some(o), leaseExpiresAt := Some(now + LEASE_MS));
      this.(run := run + [Claim(f, o, 0, now, STORED)], calm := calm && passes == map[],
            item := l, passes := passes[f := Flight(o, Claimed(l))])
    }

    function Sends(f: FlightId): Scene
      requires f in passes
    {
      this.(run := run + [Decide(f, STORED)], passes := passes[f := Flight(passes[f].owner, Ready(passes[f].phase.item))])
    }

    function Adopts(f: FlightId, version: nat): Scene
      requires f in passes
    {
      var it := item.(expectedVersion := version);
      this.(run := run + [Decide(f, STORED)], item := it, passes := passes[f := Flight(passes[f].owner, Ready(it))])
    }

    function Applies(f: FlightId, n: nat): Scene
      requires f in passes
    {
      var v := row.actualVersion + 1;
      this.(run := run + [Reply(f, None)], row := Row(v, n),
            passes := passes[f := Flight(passes[f].owner, Answered(passes[f].phase.item, Applied(Some(v))))])
    }

    function Fails(f: FlightId, reached: bool, n: nat): Scene
      requires f in passes
    {
      this.(run := run + [Fail(f, reached)], calm := calm && !reached,
            row := if reached then Row(row.actualVersion + 1, n) else row,
            passes := passes[f := Flight(passes[f].owner, Failed(passes[f].phase.item))])
    }

    function Releases(f: FlightId): Scene {
      this.(run := run + [Release(f, STORED)], item := item.(leaseOwner := None, leaseExpiresAt := None), passes := passes - {f})
    }

    function CannotStore(f: FlightId): Scene
      requires f in passes && passes[f].phase.Answered? && passes[f].phase.outcome.Applied?
    {
      var Flight(o, Answered(it, outcome)) := passes[f];
      this.(run := run + [Settle(f, LOST)], passes := passes - {f},
            memory := memory[o := map[0 := Remembered(it.generation, outcome, outcome.version)]])
    }

    function IsSuperseded(f: FlightId, version: nat): Scene
      requires f in passes
    {
      this.(run := run + [Settle(f, STORED)], passes := passes - {f}, memory := memory[passes[f].owner := map[]],
            item := item.(expectedVersion := version, leaseOwner := None, leaseExpiresAt := None))
    }
  }

  function Opening(n: nat): Scene {
    Scene([Edit(n)], true, Item(0, FIELD, Typed(n), 0, 0, None, None), map[], map[], Component(1, None, 0, None, 0))
  }

  lemma Extends(es: seq<Event>, e: Event)
    ensures Run(Empty(SERVER), es + [e]) == Step(Run(Empty(SERVER), es), e)
    ensures CalmRun(Empty(SERVER), es + [e]) <==> CalmRun(Empty(SERVER), es) && Calm(Run(Empty(SERVER), es), e)
  {
    assert (es + [e])[..|es|] == es;
  }

  lemma Opens(n: nat)
    ensures Opening(n).Plays()
  {
    Extends([], Edit(n));
    assert [] + [Edit(n)] == [Edit(n)];
  }

  lemma EditPlays(s: Scene, n: nat)
    requires s.Plays()
    ensures s.Edited(n).Plays()
  {
    Extends(s.run, Edit(n));
    assert IndexOfTarget([s.item], FIELD) == 0;
  }

  lemma ClaimPlays(s: Scene, f: FlightId, o: Owner, now: nat)
    requires s.Plays() && f !in s.passes && (s.item.leaseOwner == None || s.item.leaseOwner == Some(o))
    ensures s.Claims(f, o, now).Plays()
  {
    Extends(s.run, Claim(f, o, 0, now, STORED));
    assert Replaced([s.item], 0, s.Claims(f, o, now).item) == [s.Claims(f, o, now).item];
    assert Lookup([s.item], 0) == Some(s.item);
  }

  lemma SendPlays(s: Scene, f: FlightId)
    requires s.Plays() && f in s.passes && s.passes[f].phase == Claimed(s.item)
    requires s.passes[f].owner in s.memory ==> s.memory[s.passes[f].owner] == map[]
    ensures s.Sends(f).Plays()
  {
    Extends(s.run, Decide(f, STORED));
  }

  lemma AdoptPlays(s: Scene, f: FlightId, o: Owner, version: nat)
    requires s.Plays() && f in s.passes && s.passes[f] == Flight(o, Claimed(s.item)) && s.item.leaseOwner == Some(o)
    requires o in s.memory && 0 in s.memory[o] && s.memory[o][0].generation != s.item.generation
             && s.memory[o][0].version == Some(version)
    ensures s.Adopts(f, version).Plays()
  {
    Extends(s.run, Decide(f, STORED));
    assert Lookup([s.item], 0) == Some(s.item);
    assert Replaced([s.item], 0, s.Adopts(f, version).item) == [s.Adopts(f, version).item];
  }

  predicate AtServersVersion(s: Scene, f: FlightId, n: nat) {
    && f in s.passes && s.passes[f].phase.Ready?
    && (var it := s.passes[f].phase.item; it.target == FIELD && it.raw == Typed(n) && it.expectedVersion == s.row.actualVersion)
    && s.row.moisturePct == None && s.row.moistureVersion == 0
  }

  /** The server takes what a pass sends at its own version. */
  lemma AppliesPlays(s: Scene, f: FlightId, n: nat)
    requires s.Plays() && AtServersVersion(s, f, n)
    ensures s.Applies(f, n).Plays()
  {
    Extends(s.run, Reply(f, None));
    hide Run, CalmRun;
  }

  /** It takes it, and the answer is lost. */
  lemma AnswerLostPlays(s: Scene, f: FlightId, n: nat)
    requires s.Plays() && AtServersVersion(s, f, n)
    ensures s.Fails(f, true, n).Plays()
  {
    Extends(s.run, Fail(f, true));
    hide Run, CalmRun;
  }

  /** It never hears of it. */
  lemma UnsentPlays(s: Scene, f: FlightId, n: nat)
    requires s.Plays() && AtServersVersion(s, f, n)
    ensures s.Fails(f, false, n).Plays()
  {
    Extends(s.run, Fail(f, false));
    var w := Run(Empty(SERVER), s.run);
    hide Run, CalmRun;
    assert Step(w, Fail(f, false)).server == w.server;
  }

  lemma ReleasePlays(s: Scene, f: FlightId, o: Owner)
    requires s.Plays() && f in s.passes && s.passes[f] == Flight(o, Failed(s.item)) && s.item.leaseOwner == Some(o)
    ensures s.Releases(f).Plays()
  {
    Extends(s.run, Release(f, STORED));
    assert Replaced([s.item], 0, s.Releases(f).item) == [s.Releases(f).item];
  }

  lemma LostSettlePlays(s: Scene, f: FlightId)
    requires s.Plays() && f in s.passes && s.passes[f].phase.Answered? && s.passes[f].phase.outcome.Applied?
    requires s.passes[f].phase.item.id == 0 && s.passes[f].owner !in s.memory && s.item.leaseOwner == Some(s.passes[f].owner)
    ensures s.CannotStore(f).Plays()
  {
    Extends(s.run, Settle(f, LOST));
  }

  lemma SupersededPlays(s: Scene, f: FlightId, version: nat)
    requires s.Plays() && f in s.passes && s.passes[f].phase.Answered? && s.passes[f].phase.outcome == Applied(Some(version))
    requires s.passes[f].phase.item.id == 0 && s.passes[f].phase.item.generation != s.item.generation
    requires s.passes[f].owner !in s.memory && s.item.leaseOwner == Some(s.passes[f].owner)
    ensures s.IsSuperseded(f, version).Plays()
  {
    Extends(s.run, Settle(f, STORED));
    assert Replaced([s.item], 0, s.IsSuperseded(f, version).item) == [s.IsSuperseded(f, version).item];
  }

  lemma StaleScene(s: Scene, f: FlightId)
    requires s.Plays() && f in s.passes && s.passes[f].phase.Ready?
    requires var it := s.passes[f].phase.item;
             it.target == FIELD && it.expectedVersion != s.row.actualVersion && |it.raw.text| > 0
             && it.raw.number.Some? && it.raw.number.value >= 0.0
    ensures StaleAt(Run(Empty(SERVER), s.run), f)
  {
  }

  // ---- The runs --------------------------------------------------------------------

  /** Dropping "no answer is lost": one tab, one pass at a time, and still a false conflict. */
  lemma LostAnswerConflicts()
    ensures StaleAt(Run(Empty(SERVER),
              [Edit(1), Claim(10, 1, 0, 0, STORED), Decide(10, STORED), Fail(10, true), Release(10, STORED),
               Edit(2), Claim(11, 1, 0, 1, STORED), Decide(11, STORED)]), 11)
  {
    hide Scene.Plays, Run;
    Opens(1);
    var s := Opening(1);
    ClaimPlays(s, 10, 1, 0);
    s := s.Claims(10, 1, 0);
    SendPlays(s, 10);
    s := s.Sends(10);
    AnswerLostPlays(s, 10, 1);
    s := s.Fails(10, true, 1);
    ReleasePlays(s, 10, 1);
    s := s.Releases(10);
    EditPlays(s, 2);
    s := s.Edited(2);
    ClaimPlays(s, 11, 1, 1);
    s := s.Claims(11, 1, 1);
    SendPlays(s, 11);
    s := s.Sends(11);
    StaleScene(s, 11);
    assert s.run == [Edit(1), Claim(10, 1, 0, 0, STORED), Decide(10, STORED), Fail(10, true), Release(10, STORED),
                     Edit(2), Claim(11, 1, 0, 1, STORED), Decide(11, STORED)];
  }

  /** Dropping "one pass per item": a tab's own lease lets its second flush send the edited item too early. */
  lemma TwoPassesConflict()
    ensures StaleAt(Run(Empty(SERVER),
              [Edit(1), Claim(10, 1, 0, 0, STORED), Decide(10, STORED), Reply(10, None),
               Edit(2), Claim(11, 1, 0, 1, STORED), Decide(11, STORED)]), 11)
  {
    hide Scene.Plays, Run;
    Opens(1);
    var s := Opening(1);
    ClaimPlays(s, 10, 1, 0);
    s := s.Claims(10, 1, 0);
    SendPlays(s, 10);
    s := s.Sends(10);
    AppliesPlays(s, 10, 1);
    s := s.Applies(10, 1);
    EditPlays(s, 2);
    s := s.Edited(2);
    ClaimPlays(s, 11, 1, 1);
    s := s.Claims(11, 1, 1);
    SendPlays(s, 11);
    s := s.Sends(11);
    StaleScene(s, 11);
    assert s.run == [Edit(1), Claim(10, 1, 0, 0, STORED), Decide(10, STORED), Reply(10, None),
                     Edit(2), Claim(11, 1, 0, 1, STORED), Decide(11, STORED)];
  }

  /** Tab 1 applies a reading it cannot store and gives the item up; tab 2 moves the field on; tab 1 lowers the version. */
  const TAB_ONE := [
    Edit(1), Claim(10, 1, 0, 0, STORED), Decide(10, STORED), Reply(10, None), Settle(10, LOST),
    Edit(2), Claim(11, 1, 0, 1, STORED), Decide(11, STORED), Fail(11, false), Release(11, STORED)]
  const TWO_TABS := TAB_ONE + [
    Claim(12, 2, 0, 2, STORED), Decide(12, STORED), Reply(12, None), Edit(3), Settle(12, STORED),
    Claim(13, 1, 0, 3, STORED), Decide(13, STORED)]

  /** The item given up, at the version tab 1 put on it and still remembers. */
  const GIVEN_UP := Scene(TAB_ONE, true, Item(0, FIELD, Typed(2), 1, 1, None, None), map[],
                          map[1 := map[0 := Remembered(0, Applied(Some(1)), Some(1))]], Row(1, 1))

  lemma TabOneGivesUp()
    ensures GIVEN_UP.Plays()
  {
    hide Scene.Plays, Run;
    Opens(1);
    var s := Opening(1);
    ClaimPlays(s, 10, 1, 0);
    s := s.Claims(10, 1, 0);
    SendPlays(s, 10);
    s := s.Sends(10);
    AppliesPlays(s, 10, 1);
    s := s.Applies(10, 1);
    LostSettlePlays(s, 10);
    s := s.CannotStore(10);
    EditPlays(s, 2);
    s := s.Edited(2);
    assert s.passes == map[];
    ClaimPlays(s, 11, 1, 1);
    s := s.Claims(11, 1, 1);
    AdoptPlays(s, 11, 1, 1);
    s := s.Adopts(11, 1);
    UnsentPlays(s, 11, 2);
    s := s.Fails(11, false, 2);
    ReleasePlays(s, 11, 1);
    s := s.Releases(11);
    assert s.passes == map[] && s.run == TAB_ONE;
    assert s == GIVEN_UP;
  }

  /** A calm run, every condition of the promise met, that still ends in a false conflict. */
  lemma TwoTabsConflict()
    ensures CalmRun(Empty(SERVER), TWO_TABS) && StaleAt(Run(Empty(SERVER), TWO_TABS), 13)
  {
    hide Scene.Plays, Run;
    TabOneGivesUp();
    var s := GIVEN_UP;
    ClaimPlays(s, 12, 2, 2);
    s := s.Claims(12, 2, 2);
    SendPlays(s, 12);
    s := s.Sends(12);
    AppliesPlays(s, 12, 2);
    s := s.Applies(12, 2);
    EditPlays(s, 3);
    s := s.Edited(3);
    SupersededPlays(s, 12, 2);
    s := s.IsSuperseded(12, 2);
    assert s.passes == map[];
    ClaimPlays(s, 13, 1, 3);
    s := s.Claims(13, 1, 3);
    AdoptPlays(s, 13, 1, 1);
    s := s.Adopts(13, 1);
    StaleScene(s, 13);
    assert s.run == TWO_TABS;
    CalmScene(s);
  }

  lemma CalmScene(s: Scene)
    requires s.Plays() && s.calm
    ensures CalmRun(Empty(SERVER), s.run)
  {
  }
}
