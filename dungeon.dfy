/**
 * DungeonEditor (src/dungeon/dungeon.cpp): the editor's list of NPCs, with
 * adding, counting, loading and saving, the pairwise battle round and the
 * removal of the dead.
 *
 * The list is a `seq<Npc>` field that the methods reassign; the NPC objects
 * in it are changed in place by a battle. Each method is proved against a
 * function on the list's snapshot (`Views`).
 */
module Dungeon {
  import opened Wrappers
  import opened Geometry
  import opened Npcs
  import opened Factory
  import opened Events
  import opened Battle

  /** The two observers start_battle subscribes: the console and the log file. */
  const ConsoleObserver := Observer(0)
  const FileObserver := Observer(1)
  const BattleObservers := [ConsoleObserver, FileObserver]

  // ---------------------------------------------------------------------
  // add_npc on values.

  /** Some NPC in the list, alive or dead, already has this name. */
  predicate NameTaken(vs: seq<NpcView>, name: string)
  {
    exists k :: 0 <= k < |vs| && vs[k].name == name
  }

  /** No two NPCs of the list share a name. */
  predicate NamesUnique(vs: seq<NpcView>)
  {
    forall i, j :: 0 <= i < j < |vs| ==> vs[i].name != vs[j].name
  }

  /** add_npc: a taken name or an unknown type leaves the list as it was. */
  function Added(vs: seq<NpcView>, typeName: string, name: string, position: Point): seq<NpcView>
  {
    if NameTaken(vs, name) then vs
    else match Create(typeName, name, position)
      case Success(v) => vs + [v]
      case Failure(_) => vs
  }

  // ---------------------------------------------------------------------
  // start_battle on values.

  /** The list during or after a battle round, and the events published so far. */
  datatype Round = Round(npcs: seq<NpcView>, events: seq<BattleEvent>)

  /** One visit of the round: `vs[i]` attacks `vs[j]`. */
  function Encounter(vs: seq<NpcView>, i: nat, j: nat, radius: int): (r: Round)
    requires i < |vs| && j < |vs|
    ensures |r.npcs| == |vs|
  {
    var o := Fight(vs[i], vs[j], radius);
    Round(vs[i := o.attacker][j := o.target], o.events)
  }

  /**
   * The rest of the round from the visit of pair (i, j) on: the pairs are
   * visited in the order of start_battle's two loops, i < j, with the
   * earlier NPC attacking.
   */
  function Sweep(vs: seq<NpcView>, es: seq<BattleEvent>, i: nat, j: nat, radius: int): (r: Round)
    decreases |vs| - i, |vs| - j
  {
    if i >= |vs| then Round(vs, es)
    else if j >= |vs| then Sweep(vs, es, i + 1, i + 2, radius)
    else
      var e := Encounter(vs, i, j, radius);
      Sweep(e.npcs, es + e.events, i, j + 1, radius)
  }

  /** Row i of the round from column j on: `vs[i]` attacks `vs[j]`, `vs[j + 1]`, ... in turn. */
  function SweepRow(vs: seq<NpcView>, es: seq<BattleEvent>, i: nat, j: nat, radius: int): (r: Round)
    requires i < |vs|
    ensures |r.npcs| == |vs|
    decreases |vs| - j
  {
    if j >= |vs| then Round(vs, es)
    else
      var e := Encounter(vs, i, j, radius);
      SweepRow(e.npcs, es + e.events, i, j + 1, radius)
  }

  /** start_battle: the whole round, then the dead are removed. */
  function BattleRound(vs: seq<NpcView>, radius: int): Round
  {
    var r := Sweep(vs, [], 0, 1, radius);
    Round(LiveOnly(r.npcs), r.events)
  }

  class DungeonEditor {
    var npcs: seq<Npc>

    /** The editor owns its NPCs: no object is in the list twice. */
    predicate Valid()
      reads this
    {
      Distinct(npcs)
    }

    constructor ()
      ensures Valid() && npcs == []
    {
      npcs := [];
    }

    /** is_name_exists: some NPC, alive or dead, has the name. */
    method IsNameExists(name: string) returns (b: bool)
      ensures b <==> NameTaken(Views(npcs), name)
    {
      var i := 0;
      while i < |npcs|
        invariant 0 <= i <= |npcs|
        invariant forall k :: 0 <= k < i ==> npcs[k].name != name
      {
        if npcs[i].name == name {
          assert Views(npcs)[i].name == name;
          return true;
        }
        i := i + 1;
      }
      return false;
    }

    /** get_alive_count: the number of living NPCs. */
    method GetAliveCount() returns (n: nat)
      ensures n == AliveCount(Views(npcs))
    {
      ghost var vs := Views(npcs);
      n := 0;
      var i := 0;
      while i < |npcs|
        invariant 0 <= i <= |npcs|
        invariant n == AliveCount(vs[..i])
      {
        if npcs[i].alive {
          n := n + 1;
        }
        assert vs[..i + 1] == vs[..i] + [vs[i]];
        AliveCountAppend(vs[..i], [vs[i]]);
        i := i + 1;
      }
      assert vs[..i] == vs;
    }

    /** add_npc: a new NPC is appended unless its name is taken or its type unknown. */
    method AddNpc(typeName: string, name: string, x: Int32, y: Int32)
      requires Valid()
      modifies this
      ensures Valid()
      ensures Views(npcs) == Added(old(Views(npcs)), typeName, name, Point(x, y))
      ensures forall n :: n in npcs ==> n in old(npcs) || fresh(n)
    {
      var taken := IsNameExists(name);
      if taken {
        return;
      }
      var created := Create(typeName, name, Point(x, y));
      if created.Success? {
        CreateSucceedsExactlyForRegisteredTypes(typeName, name, Point(x, y));
        var npc := new Npc(created.value.name, created.value.kind, created.value.position);
        ViewsAppend(npcs, npc);
        npcs := npcs + [npc];
      }
    }

    /** cleanup_dead_npcs: the dead are removed; the living keep their order. */
    method CleanupDeadNpcs()
      requires Valid()
      modifies this
      ensures Valid()
      ensures Views(npcs) == LiveOnly(old(Views(npcs)))
      ensures forall n :: n in npcs ==> n in old(npcs)
    {
      ghost var vs := Views(npcs);
      var kept: seq<Npc> := [];
      var i := 0;
      while i < |npcs|
        invariant 0 <= i <= |npcs|
        invariant npcs == old(npcs)
        invariant Views(kept) == LiveOnly(vs[..i])
        invariant Distinct(kept)
        invariant forall n :: n in kept ==> n in npcs[..i]
      {
        var npc := npcs[i];
        if npc.alive {
          assert npc !in npcs[..i];
          ViewsAppend(kept, npc);
          kept := kept + [npc];
        }
        assert vs[..i + 1] == vs[..i] + [vs[i]];
        LiveOnlyAppend(vs[..i], [vs[i]]);
        i := i + 1;
      }
      assert vs[..i] == vs;
      npcs := kept;
    }

    /** remove_dead_npcs: the public name of cleanup_dead_npcs. */
    method RemoveDeadNpcs()
      requires Valid()
      modifies this
      ensures Valid()
      ensures Views(npcs) == LiveOnly(old(Views(npcs)))
      ensures forall n :: n in npcs ==> n in old(npcs)
    {
      CleanupDeadNpcs();
    }

    /**
     * load_from_file: `file` is the file's lines, or None when it cannot be
     * opened; the list is replaced only when loading succeeds.
     */
    method LoadFromFile(file: Option<seq<string>>)
      requires Valid()
      modifies this
      ensures Valid()
      ensures file.None? ==> npcs == old(npcs)
      ensures file.Some? ==> Views(npcs) == Loaded(file.value) && forall n :: n in npcs ==> fresh(n)
    {
      if file.Some? {
        npcs := LoadFromLines(file.value);
      }
    }

    /** save_to_file: the lines written for the current list. */
    method SaveToFile() returns (lines: seq<string>)
      ensures lines == Saved(Views(npcs))
    {
      lines := SaveToLines(npcs);
    }

    /** One visit of start_battle's inner loop: npcs[i] attacks npcs[j]. */
    method VisitPair(visitor: BattleVisitor, i: nat, j: nat) returns (delivered: seq<Delivery>)
      requires Valid() && i < j < |npcs|
      modifies visitor, npcs[i], npcs[j]
      ensures Views(npcs) == Encounter(old(Views(npcs)), i, j, visitor.radius).npcs
      ensures delivered == Broadcast(visitor.events.observers, Encounter(old(Views(npcs)), i, j, visitor.radius).events)
    {
      ghost var vs := Views(npcs);
      visitor.SetAttacker(npcs[i]);
      delivered := visitor.PerformBattle(npcs[j]);
      ghost var e := Encounter(vs, i, j, visitor.radius);
      forall k | 0 <= k < |npcs|
        ensures Views(npcs)[k] == e.npcs[k]
      {
        if k != i && k != j {
          assert npcs[k] != npcs[i] && npcs[k] != npcs[j];
        }
      }
    }

    /** One pass of start_battle's inner loop: the guards on npcs[j], then the visit. */
    method VisitNext(visitor: BattleVisitor, i: nat, j: nat, delivered: seq<Delivery>, ghost es: seq<BattleEvent>)
      returns (delivered': seq<Delivery>, ghost es': seq<BattleEvent>)
      requires Valid() && i < j < |npcs|
      requires visitor.events.observers == BattleObservers
      requires delivered == Broadcast(BattleObservers, es)
      modifies visitor, npcs[i], npcs[j]
      ensures visitor.events.observers == BattleObservers
      ensures delivered' == Broadcast(BattleObservers, es')
      ensures Views(npcs) == Encounter(old(Views(npcs)), i, j, visitor.radius).npcs
      ensures es' == es + Encounter(old(Views(npcs)), i, j, visitor.radius).events
    {
      ghost var vs := Views(npcs);
      delivered', es' := delivered, es;
      if npcs[j].alive {
        var d2 := npcs[i].position.DistanceSquaredTo(npcs[j].position);
        if WithinRadius(d2, visitor.radius) {
          ghost var e := Encounter(vs, i, j, visitor.radius);
          var d := VisitPair(visitor, i, j);
          BroadcastAppend(BattleObservers, es, e.events);
          delivered', es' := delivered + d, es + e.events;
          return;
        }
      }
      EncounterOutOfReach(vs, i, j, visitor.radius);
      assert es + [] == es;
    }

    /** start_battle's inner loop: npcs[i] attacks every later NPC in turn. */
    method AttackFrom(visitor: BattleVisitor, i: nat, delivered: seq<Delivery>, ghost es: seq<BattleEvent>)
      returns (delivered': seq<Delivery>, ghost es': seq<BattleEvent>)
      requires Valid() && i < |npcs|
      requires visitor.events.observers == BattleObservers
      requires delivered == Broadcast(BattleObservers, es)
      modifies visitor, npcs
      ensures visitor.events.observers == BattleObservers
      ensures delivered' == Broadcast(BattleObservers, es')
      ensures Views(npcs) == SweepRow(old(Views(npcs)), es, i, i + 1, visitor.radius).npcs
      ensures es' == SweepRow(old(Views(npcs)), es, i, i + 1, visitor.radius).events
      ensures !old(npcs[i].alive) ==> Views(npcs) == old(Views(npcs)) && es' == es
    {
      delivered', es' := delivered, es;
      if !npcs[i].alive {
        RowSkipsDead(Views(npcs), es, i, i + 1, visitor.radius);
        return;
      }
      var j := i + 1;
      while j < |npcs|
        invariant i < j <= |npcs|
        invariant visitor.events.observers == BattleObservers
        invariant delivered' == Broadcast(BattleObservers, es')
        invariant SweepRow(Views(npcs), es', i, j, visitor.radius) == SweepRow(old(Views(npcs)), es, i, i + 1, visitor.radius)
      {
        delivered', es' := VisitNext(visitor, i, j, delivered', es');
        j := j + 1;
      }
    }

    /** start_battle's two loops: every pair i < j is visited in order, the earlier NPC attacking. */
    method VisitAllPairs(visitor: BattleVisitor) returns (delivered: seq<Delivery>)
      requires Valid()
      requires visitor.events.observers == BattleObservers
      modifies visitor, npcs
      ensures Views(npcs) == Sweep(old(Views(npcs)), [], 0, 1, visitor.radius).npcs
      ensures delivered == Broadcast(BattleObservers, Sweep(old(Views(npcs)), [], 0, 1, visitor.radius).events)
    {
      ghost var start := Views(npcs);
      ghost var es: seq<BattleEvent> := [];
      delivered := [];
      var i := 0;
      while i < |npcs|
        invariant 0 <= i <= |npcs|
        invariant visitor.events.observers == BattleObservers
        invariant delivered == Broadcast(BattleObservers, es)
        invariant Sweep(Views(npcs), es, i, i + 1, visitor.radius) == Sweep(start, [], 0, 1, visitor.radius)
      {
        ghost var before := Views(npcs);
        ghost var esBefore := es;
        delivered, es := AttackFrom(visitor, i, delivered, es);
        SweepByRows(before, esBefore, i, i + 1, visitor.radius);
        i := i + 1;
      }
    }

    /**
     * start_battle: a battle visitor with the console and the log file
     * subscribed visits every pair, then the dead are removed.
     */
    method StartBattle(radius: int) returns (delivered: seq<Delivery>)
      requires Valid()
      modifies this, npcs
      ensures Valid()
      ensures Views(npcs) == BattleRound(old(Views(npcs)), radius).npcs
      ensures delivered == Broadcast(BattleObservers, BattleRound(old(Views(npcs)), radius).events)
      ensures forall n :: n in npcs ==> n in old(npcs)
    {
      var visitor := new BattleVisitor(radius);
      visitor.Subscribe(ConsoleObserver);
      visitor.Subscribe(FileObserver);
      delivered := VisitAllPairs(visitor);
      CleanupDeadNpcs();
    }
  }

  // ---------------------------------------------------------------------
  // Lemmas about one visit and about the round.

  /** A visit of a dead NPC, or of one out of reach, changes nothing and publishes nothing. */
  lemma EncounterOutOfReach(vs: seq<NpcView>, i: nat, j: nat, radius: int)
    requires i < |vs| && j < |vs|
    requires !Engaged(vs[i], vs[j], radius)
    ensures Encounter(vs, i, j, radius) == Round(vs, [])
  {
    assert vs[i := vs[i]][j := vs[j]] == vs;
  }

  /** A visit that changes nothing is passed over. */
  lemma SweepPastUnreachable(vs: seq<NpcView>, es: seq<BattleEvent>, i: nat, j: nat, radius: int)
    requires i < |vs| && j < |vs|
    requires !Engaged(vs[i], vs[j], radius)
    ensures Sweep(vs, es, i, j, radius) == Sweep(vs, es, i, j + 1, radius)
  {
    EncounterOutOfReach(vs, i, j, radius);
    assert es + [] == es;
  }

  /** An attacker that is dead attacks nobody: the rest of its row is skipped. */
  lemma {:induction false} SweepSkipsDead(vs: seq<NpcView>, es: seq<BattleEvent>, i: nat, j: nat, radius: int)
    requires i < j <= |vs| && !vs[i].alive
    ensures Sweep(vs, es, i, j, radius) == Sweep(vs, es, i + 1, i + 2, radius)
    decreases |vs| - j
  {
    if j < |vs| {
      SweepPastUnreachable(vs, es, i, j, radius);
      SweepSkipsDead(vs, es, i, j + 1, radius);
    }
  }

  /** The round is its rows one after the other: row i from column j, then the rows after it. */
  lemma {:induction false} SweepByRows(vs: seq<NpcView>, es: seq<BattleEvent>, i: nat, j: nat, radius: int)
    requires i < j && i < |vs|
    ensures Sweep(vs, es, i, j, radius) ==
      Sweep(SweepRow(vs, es, i, j, radius).npcs, SweepRow(vs, es, i, j, radius).events, i + 1, i + 2, radius)
    decreases |vs| - j
  {
    if j < |vs| {
      var e := Encounter(vs, i, j, radius);
      SweepByRows(e.npcs, es + e.events, i, j + 1, radius);
    }
  }

  /** A dead attacker's row changes nothing and publishes nothing. */
  lemma {:induction false} RowSkipsDead(vs: seq<NpcView>, es: seq<BattleEvent>, i: nat, j: nat, radius: int)
    requires i < |vs| && !vs[i].alive
    ensures SweepRow(vs, es, i, j, radius) == Round(vs, es)
    decreases |vs| - j
  {
    if j < |vs| {
      EncounterOutOfReach(vs, i, j, radius);
      assert es + [] == es;
      RowSkipsDead(vs, es, i, j + 1, radius);
    }
  }

  // ---------------------------------------------------------------------
  // Properties of add_npc.

  /**
   * add_npc changes the list exactly when the name is free and the type is
   * one of the three registered ones, and then appends one living NPC with
   * that name, type and position.
   */
  lemma AddNpcRules(vs: seq<NpcView>, typeName: string, name: string, position: Point)
    ensures Added(vs, typeName, name, position) != vs <==>
      !NameTaken(vs, name) && (typeName == OrcType || typeName == DruidType || typeName == SquirrelType)
    ensures Added(vs, typeName, name, position) != vs ==>
      exists k :: TypeName(k) == typeName && Added(vs, typeName, name, position) == vs + [NpcView(name, k, position, true)]
  {
    CreateSucceedsExactlyForRegisteredTypes(typeName, name, position);
    var r := Added(vs, typeName, name, position);
    if r != vs {
      var v := Create(typeName, name, position).value;
      assert v == NpcView(name, v.kind, position, true);
      assert |r| == |vs| + 1;
    }
  }

  /** Adding keeps the names in the list unique. */
  lemma AddNpcKeepsNamesUnique(vs: seq<NpcView>, typeName: string, name: string, position: Point)
    requires NamesUnique(vs)
    ensures NamesUnique(Added(vs, typeName, name, position))
  {
    AddNpcRules(vs, typeName, name, position);
    var r := Added(vs, typeName, name, position);
    if r != vs {
      forall i, j | 0 <= i < j < |r|
        ensures r[i].name != r[j].name
      {
        if j == |vs| {
          assert r[i] == vs[i] && r[j].name == name;
        }
      }
    }
  }

  // ---------------------------------------------------------------------
  // Properties of the battle round.

  /** A visit can only kill: names, kinds and positions stay, and nobody comes back to life. */
  lemma EncounterOnlyKills(vs: seq<NpcView>, i: nat, j: nat, radius: int)
    requires i < |vs| && j < |vs| && i != j
    ensures forall k :: 0 <= k < |vs| ==>
      var w := Encounter(vs, i, j, radius).npcs[k];
      w == vs[k].(alive := w.alive) && (w.alive ==> vs[k].alive)
  {
  }

  /** The round can only kill: names, kinds and positions stay, and nobody comes back to life. */
  lemma {:induction false} SweepOnlyKills(vs: seq<NpcView>, es: seq<BattleEvent>, i: nat, j: nat, radius: int)
    requires i < j
    ensures |Sweep(vs, es, i, j, radius).npcs| == |vs|
    ensures forall k :: 0 <= k < |vs| ==>
      var w := Sweep(vs, es, i, j, radius).npcs[k];
      w == vs[k].(alive := w.alive) && (w.alive ==> vs[k].alive)
    decreases |vs| - i, |vs| - j
  {
    if i >= |vs| {
    } else if j >= |vs| {
      SweepOnlyKills(vs, es, i + 1, i + 2, radius);
    } else {
      var e := Encounter(vs, i, j, radius);
      EncounterOnlyKills(vs, i, j, radius);
      SweepOnlyKills(e.npcs, es + e.events, i, j + 1, radius);
    }
  }

  /** A visit publishes one event per NPC it kills. */
  lemma EncounterCountsDeaths(vs: seq<NpcView>, i: nat, j: nat, radius: int)
    requires i < |vs| && j < |vs| && i != j
    ensures AliveCount(Encounter(vs, i, j, radius).npcs) + |Encounter(vs, i, j, radius).events| == AliveCount(vs)
  {
    var o := Fight(vs[i], vs[j], radius);
    AliveCountUpdate(vs, i, o.attacker);
    AliveCountUpdate(vs[i := o.attacker], j, o.target);
  }

  /** Over the round, every published event is one death and every death publishes one event. */
  lemma {:induction false} SweepCountsDeaths(vs: seq<NpcView>, es: seq<BattleEvent>, i: nat, j: nat, radius: int)
    requires i < j
    ensures AliveCount(Sweep(vs, es, i, j, radius).npcs) + |Sweep(vs, es, i, j, radius).events| == AliveCount(vs) + |es|
    decreases |vs| - i, |vs| - j
  {
    if i >= |vs| {
    } else if j >= |vs| {
      SweepCountsDeaths(vs, es, i + 1, i + 2, radius);
    } else {
      var e := Encounter(vs, i, j, radius);
      EncounterCountsDeaths(vs, i, j, radius);
      SweepCountsDeaths(e.npcs, es + e.events, i, j + 1, radius);
    }
  }

  /**
   * After start_battle every NPC left is alive, and the number of events
   * published is the number of NPCs that died.
   */
  lemma BattleRoundOutcome(vs: seq<NpcView>, radius: int)
    ensures forall v :: v in BattleRound(vs, radius).npcs ==> v.alive
    ensures |BattleRound(vs, radius).npcs| + |BattleRound(vs, radius).events| == AliveCount(vs)
  {
    var r := Sweep(vs, [], 0, 1, radius);
    LiveOnlyMembers(r.npcs);
    SweepCountsDeaths(vs, [], 0, 1, radius);
  }

  /** With fewer than two NPCs nobody fights: only the already dead are removed. */
  lemma TooFewToFight(vs: seq<NpcView>, radius: int)
    requires |vs| <= 1
    ensures BattleRound(vs, radius) == Round(LiveOnly(vs), [])
  {
    if |vs| == 1 {
      assert Sweep(vs, [], 0, 1, radius) == Sweep(vs, [], 1, 2, radius);
    }
  }

  /** Two NPCs of the list that are engaged at this radius cannot kill each other. */
  predicate Peaceful(vs: seq<NpcView>, radius: int)
  {
    forall a, b :: a in vs && b in vs && Engaged(a, b, radius) ==> !Kills(a.kind, b.kind)
  }

  /** Every pair visited before (i, j) that is still engaged has no killer in it. */
  predicate Settled(vs: seq<NpcView>, i: nat, j: nat, radius: int)
  {
    forall p, q :: 0 <= p < q < |vs| && (p < i || (p == i && q < j)) && Engaged(vs[p], vs[q], radius) ==>
      !Kills(vs[p].kind, vs[q].kind) && !Kills(vs[q].kind, vs[p].kind)
  }

  /** A visit settles its pair and keeps the earlier pairs settled. */
  lemma EncounterSettles(vs: seq<NpcView>, i: nat, j: nat, radius: int)
    requires i < j < |vs| && Settled(vs, i, j, radius)
    ensures Settled(Encounter(vs, i, j, radius).npcs, i, j + 1, radius)
  {
    var w := Encounter(vs, i, j, radius).npcs;
    EncounterOnlyKills(vs, i, j, radius);
    forall p, q | 0 <= p < q < |w| && (p < i || (p == i && q < j + 1)) && Engaged(w[p], w[q], radius)
      ensures !Kills(w[p].kind, w[q].kind) && !Kills(w[q].kind, w[p].kind)
    {
      assert Engaged(vs[p], vs[q], radius);
      if p == i && q == j {
        MatchupIsAsymmetric(vs[i].kind, vs[j].kind);
      }
    }
  }

  /** By the end of the round every pair is settled. */
  lemma {:induction false} SweepSettles(vs: seq<NpcView>, es: seq<BattleEvent>, i: nat, j: nat, radius: int)
    requires i < j && Settled(vs, i, j, radius)
    ensures Settled(Sweep(vs, es, i, j, radius).npcs, |vs|, 0, radius)
    decreases |vs| - i, |vs| - j
  {
    if i >= |vs| {
      assert Sweep(vs, es, i, j, radius).npcs == vs;
    } else if j >= |vs| {
      SweepSettles(vs, es, i + 1, i + 2, radius);
    } else {
      var e := Encounter(vs, i, j, radius);
      EncounterSettles(vs, i, j, radius);
      SweepSettles(e.npcs, es + e.events, i, j + 1, radius);
      SweepOnlyKills(e.npcs, es + e.events, i, j + 1, radius);
    }
  }

  /** A list whose pairs are all settled is peaceful. */
  lemma SettledIsPeaceful(vs: seq<NpcView>, radius: int)
    requires Settled(vs, |vs|, 0, radius)
    ensures Peaceful(vs, radius)
  {
    forall a, b | a in vs && b in vs && Engaged(a, b, radius)
      ensures !Kills(a.kind, b.kind)
    {
      var p :| 0 <= p < |vs| && vs[p] == a;
      var q :| 0 <= q < |vs| && vs[q] == b;
      if p == q {
        MatchupIsAsymmetric(a.kind, a.kind);
      } else if q < p {
        DistanceIsSymmetric(a.position, b.position);
        assert Engaged(vs[q], vs[p], radius);
      }
    }
  }

  /** In a peaceful list nobody dies and nothing is published. */
  lemma {:induction false} PeacefulSweepIsQuiet(vs: seq<NpcView>, es: seq<BattleEvent>, i: nat, j: nat, radius: int)
    requires Peaceful(vs, radius)
    ensures Sweep(vs, es, i, j, radius) == Round(vs, es)
    decreases |vs| - i, |vs| - j
  {
    if i >= |vs| {
    } else if j >= |vs| {
      PeacefulSweepIsQuiet(vs, es, i + 1, i + 2, radius);
    } else {
      if Engaged(vs[i], vs[j], radius) {
        DistanceIsSymmetric(vs[i].position, vs[j].position);
        assert Engaged(vs[j], vs[i], radius);
        assert vs[i := vs[i]][j := vs[j]] == vs;
        assert es + [] == es;
      } else {
        SweepPastUnreachable(vs, es, i, j, radius);
      }
      PeacefulSweepIsQuiet(vs, es, i, j + 1, radius);
    }
  }

  /** In a peaceful list a battle only removes the already dead. */
  lemma PeacefulBattleRound(vs: seq<NpcView>, radius: int)
    requires Peaceful(vs, radius)
    ensures BattleRound(vs, radius) == Round(LiveOnly(vs), [])
  {
    PeacefulSweepIsQuiet(vs, [], 0, 1, radius);
  }

  /** Removing the dead keeps a list peaceful. */
  lemma LiveOnlyKeepsPeace(vs: seq<NpcView>, radius: int)
    requires Peaceful(vs, radius)
    ensures Peaceful(LiveOnly(vs), radius)
  {
    LiveOnlyMembers(vs);
  }

  /**
   * The round leaves no fight unfought: no two survivors within the radius
   * can kill each other, so a second battle at the same radius changes
   * nothing and publishes nothing.
   */
  lemma BattleRoundIsStable(vs: seq<NpcView>, radius: int)
    ensures Peaceful(BattleRound(vs, radius).npcs, radius)
    ensures BattleRound(BattleRound(vs, radius).npcs, radius) == Round(BattleRound(vs, radius).npcs, [])
  {
    var r := Sweep(vs, [], 0, 1, radius);
    var after := LiveOnly(r.npcs);
    assert BattleRound(vs, radius).npcs == after;
    assert Peaceful(after, radius) by {
      SweepSettles(vs, [], 0, 1, radius);
      SweepOnlyKills(vs, [], 0, 1, radius);
      SettledIsPeaceful(r.npcs, radius);
      LiveOnlyKeepsPeace(r.npcs, radius);
    }
    PeacefulBattleRound(after, radius);
    LiveOnlyIdempotent(r.npcs);
  }

  /** A dungeon in which no kind present can kill another kind present never changes in battle. */
  lemma NoPreyNoBattle(vs: seq<NpcView>, radius: int)
    requires forall a, b :: a in vs && b in vs ==> !Kills(a.kind, b.kind)
    ensures BattleRound(vs, radius) == Round(LiveOnly(vs), [])
  {
    PeacefulBattleRound(vs, radius);
  }
}
