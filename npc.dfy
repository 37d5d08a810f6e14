/**
 * NPCs and their matchup rules (src/npc/npc.cpp, orc.cpp, druid.cpp, squirrel.cpp).
 *
 * The three NPC subclasses become the closed datatype Kind; the virtual
 * get_type and vs become functions that dispatch on it. An NPC is an object
 * whose only mutable state is its one-way `alive` flag; everything that is
 * specified about a population is stated over its value snapshot, NpcView.
 */
module Npcs {
  import opened Wrappers
  import opened Geometry

  datatype Kind = Orc | Druid | Squirrel

  const OrcType: string := "Орк"
  const DruidType: string := "Друид"
  const SquirrelType: string := "Белка"

  const OrcKillsDruid: string := "Орк разорвал бедолагу Друида!"
  const DruidKillsSquirrel: string := "Друид уничтожил Белку!"

  /** get_type of each subclass. */
  function TypeName(k: Kind): (s: string)
    ensures s == OrcType <==> k == Orc
    ensures s == DruidType <==> k == Druid
    ensures s == SquirrelType <==> k == Squirrel
  {
    match k
    case Orc => OrcType
    case Druid => DruidType
    case Squirrel => SquirrelType
  }

  /**
   * The matchup matrix, as an independent reference for the vs functions:
   * an Orc kills a Druid, a Druid kills a Squirrel, nothing else kills.
   */
  predicate Kills(attacker: Kind, target: Kind)
  {
    (attacker == Orc && target == Druid) || (attacker == Druid && target == Squirrel)
  }

  /** Kill reach used by the simulation's discovery scan (per kind). */
  function KillDistance(k: Kind): nat
  {
    match k
    case Orc => 10
    case Druid => 10
    case Squirrel => 5
  }

  /** A snapshot of an NPC: name, kind, position and the alive flag. */
  datatype NpcView = NpcView(name: string, kind: Kind, position: Point, alive: bool)

  /** Orc::vs: nothing if either side is dead; otherwise a kill narrative only against a Druid. */
  function OrcVs(self: NpcView, target: NpcView): (r: Option<string>)
    requires self.kind == Orc
    ensures r.Some? <==> self.alive && target.alive && target.kind == Druid
    ensures r.Some? ==> r.value == OrcKillsDruid
  {
    if !self.alive || !target.alive then None
    else if TypeName(target.kind) == DruidType then Some(OrcKillsDruid)
    else None
  }

  /** Druid::vs: nothing if either side is dead; otherwise a kill narrative only against a Squirrel. */
  function DruidVs(self: NpcView, target: NpcView): (r: Option<string>)
    requires self.kind == Druid
    ensures r.Some? <==> self.alive && target.alive && target.kind == Squirrel
    ensures r.Some? ==> r.value == DruidKillsSquirrel
  {
    if !self.alive || !target.alive then None
    else if TypeName(target.kind) == SquirrelType then Some(DruidKillsSquirrel)
    else None
  }

  /** Squirrel::vs: squirrels kill nobody, whatever the state of either side. */
  function SquirrelVs(self: NpcView, target: NpcView): (r: Option<string>)
    requires self.kind == Squirrel
    ensures r == None
  {
    None
  }

  /** NPC::vs, dispatched on the attacker's kind: a kill happens exactly as the matchup matrix says, between two living NPCs. */
  function Vs(attacker: NpcView, target: NpcView): (r: Option<string>)
    ensures r.Some? <==> attacker.alive && target.alive && Kills(attacker.kind, target.kind)
  {
    match attacker.kind
    case Orc => OrcVs(attacker, target)
    case Druid => DruidVs(attacker, target)
    case Squirrel => SquirrelVs(attacker, target)
  }

  /** The matchup is asymmetric: if a kills b, b does not kill a; in particular no kind kills its own kind. */
  lemma MatchupIsAsymmetric(a: Kind, b: Kind)
    ensures Kills(a, b) ==> !Kills(b, a)
    ensures !Kills(a, a)
  {
  }

  /** vs looks only at kinds and alive flags: names and positions (even equal ones) do not matter. */
  lemma VsIgnoresNamesAndPositions(a: NpcView, t: NpcView, a': NpcView, t': NpcView)
    requires a.kind == a'.kind && a.alive == a'.alive
    requires t.kind == t'.kind && t.alive == t'.alive
    ensures Vs(a, t) == Vs(a', t')
  {
  }

  /** Orc against Druid kills, Druid against Orc does not (test_npc.cpp). */
  lemma OrcDruidAsymmetry(orc: NpcView, druid: NpcView)
    requires orc.kind == Orc && druid.kind == Druid && orc.alive && druid.alive
    ensures Vs(orc, druid) == Some(OrcKillsDruid)
    ensures Vs(druid, orc) == None
  {
  }

  class Npc {
    const name: string
    const kind: Kind
    const position: Point
    var alive: bool

    /** A new NPC holds the given name and position and is alive. */
    constructor (name: string, kind: Kind, position: Point)
      ensures this.name == name && this.kind == kind && this.position == position
      ensures alive
    {
      this.name := name;
      this.kind := kind;
      this.position := position;
      this.alive := true;
    }

    function View(): (v: NpcView)
      reads this
    {
      NpcView(name, kind, position, alive)
    }

    /** kill: the NPC is dead afterwards (also when it already was); nothing else changes. */
    method Kill()
      modifies this
      ensures !alive
      ensures View() == old(View()).(alive := false)
    {
      alive := false;
    }
  }

  /** The snapshot of a list of NPCs, element by element. */
  function Views(npcs: seq<Npc>): (r: seq<NpcView>)
    reads npcs
    ensures |r| == |npcs|
    ensures forall i :: 0 <= i < |npcs| ==> r[i] == npcs[i].View()
  {
    seq(|npcs|, i reads npcs requires 0 <= i < |npcs| => npcs[i].View())
  }

  lemma ViewsAppend(npcs: seq<Npc>, n: Npc)
    ensures Views(npcs + [n]) == Views(npcs) + [n.View()]
  {
    assert forall i :: 0 <= i < |npcs| ==> (npcs + [n])[i] == npcs[i];
  }

  /** The list owns its NPCs: no object appears twice. */
  predicate Distinct(npcs: seq<Npc>)
  {
    forall i, j :: 0 <= i < j < |npcs| ==> npcs[i] != npcs[j]
  }

  /** Number of living NPCs (count_if over is_alive). */
  function AliveCount(vs: seq<NpcView>): (n: nat)
    ensures n <= |vs|
  {
    if vs == [] then 0
    else (if vs[0].alive then 1 else 0) + AliveCount(vs[1..])
  }

  /** The living NPCs, in their original order (remove_if of the dead ones). */
  function LiveOnly(vs: seq<NpcView>): (r: seq<NpcView>)
    ensures |r| <= |vs|
  {
    if vs == [] then []
    else (if vs[0].alive then [vs[0]] else []) + LiveOnly(vs[1..])
  }

  /** Everyone counts as alive exactly when nobody in the list is dead. */
  lemma {:induction false} AliveCountFull(vs: seq<NpcView>)
    ensures AliveCount(vs) == |vs| <==> forall v :: v in vs ==> v.alive
  {
    if vs != [] {
      AliveCountFull(vs[1..]);
      assert forall v :: v in vs <==> v == vs[0] || v in vs[1..];
    }
  }

  /** The survivors are exactly the living members of the list, and there are AliveCount of them. */
  lemma {:induction false} LiveOnlyMembers(vs: seq<NpcView>)
    ensures |LiveOnly(vs)| == AliveCount(vs)
    ensures forall v :: v in LiveOnly(vs) <==> v in vs && v.alive
  {
    if vs != [] {
      LiveOnlyMembers(vs[1..]);
      assert forall v :: v in vs <==> v == vs[0] || v in vs[1..];
    }
  }

  /** Filtering the dead keeps the relative order: it distributes over concatenation. */
  lemma {:induction false} LiveOnlyAppend(a: seq<NpcView>, b: seq<NpcView>)
    ensures LiveOnly(a + b) == LiveOnly(a) + LiveOnly(b)
  {
    if a == [] {
      assert a + b == b;
    } else {
      var ab := a + b;
      assert ab[0] == a[0];
      assert ab[1..] == a[1..] + b;
      var head := if a[0].alive then [a[0]] else [];
      assert LiveOnly(ab) == head + LiveOnly(a[1..] + b);
      LiveOnlyAppend(a[1..], b);
      assert head + (LiveOnly(a[1..]) + LiveOnly(b)) == (head + LiveOnly(a[1..])) + LiveOnly(b);
    }
  }

  /** Counting the living distributes over concatenation. */
  lemma {:induction false} AliveCountAppend(a: seq<NpcView>, b: seq<NpcView>)
    ensures AliveCount(a + b) == AliveCount(a) + AliveCount(b)
  {
    if a == [] {
      assert a + b == b;
    } else {
      assert (a + b)[1..] == a[1..] + b;
      AliveCountAppend(a[1..], b);
    }
  }

  /** Replacing one NPC changes the count by what the old and the new one contribute. */
  lemma {:induction false} AliveCountUpdate(vs: seq<NpcView>, k: nat, v: NpcView)
    requires k < |vs|
    ensures AliveCount(vs[k := v]) + (if vs[k].alive then 1 else 0) == AliveCount(vs) + (if v.alive then 1 else 0)
  {
    if k == 0 {
      assert vs[k := v][1..] == vs[1..];
    } else {
      assert vs[k := v][1..] == vs[1..][k - 1 := v];
      AliveCountUpdate(vs[1..], k - 1, v);
    }
  }

  /** Filtering the dead twice is filtering once. */
  lemma {:induction false} LiveOnlyIdempotent(vs: seq<NpcView>)
    ensures LiveOnly(LiveOnly(vs)) == LiveOnly(vs)
  {
    if vs != [] {
      LiveOnlyIdempotent(vs[1..]);
      var head := if vs[0].alive then [vs[0]] else [];
      LiveOnlyAppend(head, LiveOnly(vs[1..]));
      assert LiveOnly(head) == head;
    }
  }
}
