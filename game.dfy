/**
 * Game (src/game/game.cpp), its sequential parts: the scan that queues a
 * battle task for every NPC within kill distance of another, the battle
 * worker that drains the queue, process_battle with its dice, and the list
 * of survivors.
 *
 * A battle task names its two NPCs by their index in the game's list: the
 * game never removes an NPC, so an index names the same NPC for the whole
 * game. Dice come in as a parameter: `dice(k)` is the pair of rolls made for
 * the k-th task the worker takes from the queue.
 */
module Game {
  import opened Wrappers
  import opened Geometry
  import opened Npcs
  import opened Factory

  /** A queued fight: the NPC at `attacker` tries to kill the NPC at `target`. */
  datatype BattleTask = BattleTask(attacker: nat, target: nat)

  /** The attack and the defence roll of one fight. */
  datatype DiceRoll = DiceRoll(attack: int, defense: int)

  predicate InRange(t: BattleTask, n: nat)
  {
    t.attacker < n && t.target < n
  }

  // ---------------------------------------------------------------------
  // The scan on values.

  /** The tasks queued for the pair (i, j): each NPC attacks the other if it is within its own kill distance. */
  function PairTasks(vs: seq<NpcView>, i: nat, j: nat): seq<BattleTask>
    requires i < |vs| && j < |vs|
  {
    var d2 := vs[i].position.DistanceSquaredTo(vs[j].position);
    (if WithinRadius(d2, KillDistance(vs[i].kind)) then [BattleTask(i, j)] else [])
    + (if WithinRadius(d2, KillDistance(vs[j].kind)) then [BattleTask(j, i)] else [])
  }

  /** Row i of the scan from column j on: the tasks of the pairs (i, j), (i, j + 1), ..., dead NPCs skipped. */
  function RowFrom(vs: seq<NpcView>, i: nat, j: nat): seq<BattleTask>
    requires i < |vs|
    decreases |vs| - j
  {
    if j >= |vs| then []
    else (if vs[j].alive then PairTasks(vs, i, j) else []) + RowFrom(vs, i, j + 1)
  }

  /** The tasks the scan queues from row i on; the row of a dead NPC is skipped. */
  function RowsFrom(vs: seq<NpcView>, i: nat): seq<BattleTask>
    decreases |vs| - i
  {
    if i >= |vs| then []
    else (if vs[i].alive then RowFrom(vs, i, i + 1) else []) + RowsFrom(vs, i + 1)
  }

  /** Everything one scan queues. */
  function Discover(vs: seq<NpcView>): seq<BattleTask>
  {
    RowsFrom(vs, 0)
  }

  /** The NPC at `a` may attack the NPC at `b`: two different living NPCs, b within a's kill distance. */
  predicate Threatens(vs: seq<NpcView>, a: nat, b: nat)
  {
    a < |vs| && b < |vs| && a != b && vs[a].alive && vs[b].alive
    && WithinRadius(vs[a].position.DistanceSquaredTo(vs[b].position), KillDistance(vs[a].kind))
  }

  // ---------------------------------------------------------------------
  // process_battle and the battle worker on values.

  /** process_battle: the target dies if the attacker can kill it, the attack roll beats the defence roll and it is still alive. */
  function Strike(vs: seq<NpcView>, t: BattleTask, roll: DiceRoll): (r: seq<NpcView>)
    requires InRange(t, |vs|)
    ensures |r| == |vs|
  {
    if Vs(vs[t.attacker], vs[t.target]).None? then vs
    else if roll.attack > roll.defense && vs[t.target].alive then vs[t.target := vs[t.target].(alive := false)]
    else vs
  }

  /**
   * The battle worker draining `queue`: a task whose attacker or target has
   * died since it was queued is dropped; the k-th task taken uses dice(k).
   */
  function Drain(vs: seq<NpcView>, queue: seq<BattleTask>, dice: nat -> DiceRoll, k: nat): (r: seq<NpcView>)
    requires forall t :: t in queue ==> InRange(t, |vs|)
    ensures |r| == |vs|
    decreases |queue|
  {
    if queue == [] then vs
    else
      var t := queue[0];
      assert t in queue && InRange(t, |vs|);
      var vs' := if vs[t.attacker].alive && vs[t.target].alive then Strike(vs, t, dice(k)) else vs;
      Drain(vs', queue[1..], dice, k + 1)
  }

  // ---------------------------------------------------------------------
  // get_survivors on values.

  /** How get_survivors shows a living NPC: its name and, in parentheses, its type. */
  function Label(v: NpcView): string
  {
    v.name + " (" + TypeName(v.kind) + ")"
  }

  function SurvivorEntry(v: NpcView): Option<string>
  {
    if v.alive then Some(Label(v)) else None
  }

  /** get_survivors: the label of every living NPC, in list order. */
  function Survivors(vs: seq<NpcView>): seq<string>
  {
    Collect(vs, SurvivorEntry)
  }

  class Game {
    var npcs: seq<Npc>
    var queue: seq<BattleTask>

    /** The game owns its NPCs, and every queued task names two of them. */
    predicate Valid()
      reads this
    {
      Distinct(npcs) && forall t :: t in queue ==> InRange(t, |npcs|)
    }

    /** A game over the given NPCs (chosen at random by initialize_npcs), with an empty queue. */
    constructor (npcs: seq<Npc>)
      requires Distinct(npcs)
      ensures Valid() && this.npcs == npcs && queue == []
    {
      this.npcs := npcs;
      queue := [];
    }

    /** One pass of the scan's inner loop: the tasks for the pair (i, j). */
    method ScanPair(i: nat, j: nat)
      requires Valid() && i < j < |npcs|
      modifies this
      ensures Valid() && npcs == old(npcs) && Views(npcs) == old(Views(npcs))
      ensures queue == old(queue) + if npcs[j].alive then PairTasks(Views(npcs), i, j) else []
    {
      var a := npcs[i];
      var b := npcs[j];
      if !b.alive {
        return;
      }
      var d2 := a.position.DistanceSquaredTo(b.position);
      if WithinRadius(d2, KillDistance(a.kind)) {
        queue := queue + [BattleTask(i, j)];
      }
      if WithinRadius(d2, KillDistance(b.kind)) {
        queue := queue + [BattleTask(j, i)];
      }
    }

    /** The scan's inner loop: the tasks for npcs[i] and every later NPC. */
    method ScanRow(i: nat)
      requires Valid() && i < |npcs|
      modifies this
      ensures Valid() && npcs == old(npcs) && Views(npcs) == old(Views(npcs))
      ensures queue == old(queue) + if npcs[i].alive then RowFrom(Views(npcs), i, i + 1) else []
    {
      ghost var vs := Views(npcs);
      if !npcs[i].alive {
        return;
      }
      var j := i + 1;
      while j < |npcs|
        invariant i < j <= |npcs|
        invariant Valid() && npcs == old(npcs) && Views(npcs) == vs
        invariant queue + RowFrom(vs, i, j) == old(queue) + RowFrom(vs, i, i + 1)
      {
        ghost var q := queue;
        ScanPair(i, j);
        AppendStep(q, queue, RowFrom(vs, i, j), RowFrom(vs, i, j + 1), if vs[j].alive then PairTasks(vs, i, j) else []);
        j := j + 1;
      }
      assert queue + [] == queue;
    }

    /** The discovery scan: every task it finds is appended to the queue; no NPC changes. */
    method Scan()
      requires Valid()
      modifies this
      ensures Valid() && npcs == old(npcs)
      ensures queue == old(queue) + Discover(Views(npcs))
    {
      ghost var vs := Views(npcs);
      var i := 0;
      while i < |npcs|
        invariant 0 <= i <= |npcs|
        invariant Valid() && npcs == old(npcs) && Views(npcs) == vs
        invariant queue + RowsFrom(vs, i) == old(queue) + Discover(vs)
      {
        ghost var q := queue;
        ScanRow(i);
        AppendStep(q, queue, RowsFrom(vs, i), RowsFrom(vs, i + 1), if vs[i].alive then RowFrom(vs, i, i + 1) else []);
        i := i + 1;
      }
      assert queue + [] == queue;
    }

    /** process_battle: the attacker tries to kill the target with the given rolls. */
    method ProcessBattle(t: BattleTask, roll: DiceRoll)
      requires Valid() && InRange(t, |npcs|)
      modifies npcs[t.target]
      ensures Views(npcs) == Strike(old(Views(npcs)), t, roll)
    {
      ghost var vs := Views(npcs);
      var attacker := npcs[t.attacker];
      var target := npcs[t.target];
      var kill := Vs(attacker.View(), target.View());
      if kill.None? {
        return;
      }
      if roll.attack > roll.defense {
        if target.alive {
          target.Kill();
        }
      }
      forall k | 0 <= k < |npcs|
        ensures Views(npcs)[k] == Strike(vs, t, roll)[k]
      {
        if k != t.target {
          assert npcs[k] != target;
        }
      }
    }

    /** One pass of the battle worker: take the first task, and fight it if both NPCs still live. */
    method TakeTask(dice: nat -> DiceRoll, k: nat)
      requires Valid() && queue != []
      modifies this, npcs
      ensures Valid() && npcs == old(npcs) && queue == old(queue)[1..]
      ensures InRange(old(queue)[0], |npcs|)
      ensures var vs, t := old(Views(npcs)), old(queue)[0];
        Views(npcs) == if vs[t.attacker].alive && vs[t.target].alive then Strike(vs, t, dice(k)) else vs
      ensures Drain(Views(npcs), queue, dice, k + 1) == Drain(old(Views(npcs)), old(queue), dice, k)
    {
      var t := queue[0];
      assert t in queue;
      queue := queue[1..];
      if npcs[t.attacker].alive && npcs[t.target].alive {
        ProcessBattle(t, dice(k));
      }
    }

    /**
     * The battle worker, run after the game has stopped: it takes tasks
     * until the queue is empty.
     */
    method BattleWorker(dice: nat -> DiceRoll)
      requires Valid()
      modifies this, npcs
      ensures Valid() && npcs == old(npcs) && queue == []
      ensures Views(npcs) == Drain(old(Views(npcs)), old(queue), dice, 0)
    {
      var k := 0;
      while queue != []
        invariant Valid() && npcs == old(npcs)
        invariant Drain(Views(npcs), queue, dice, k) == Drain(old(Views(npcs)), old(queue), dice, 0)
        decreases |queue|
      {
        TakeTask(dice, k);
        k := k + 1;
      }
    }

    /** get_survivors: the labels of the living NPCs, in list order. */
    method GetSurvivors() returns (names: seq<string>)
      ensures names == Survivors(Views(npcs))
    {
      var vs := Views(npcs);
      names := [];
      var i := 0;
      while i < |vs|
        invariant 0 <= i <= |vs|
        invariant names == CollectPrefix(vs, i, SurvivorEntry)
      {
        if vs[i].alive {
          names := names + [Label(vs[i])];
        }
        i := i + 1;
      }
      CollectPrefixIsCollect(vs, i, SurvivorEntry);
      assert vs[..i] == vs;
    }
  }

  // ---------------------------------------------------------------------
  // Properties of the scan.

  lemma AppendStep<T>(q: seq<T>, q': seq<T>, rest: seq<T>, rest': seq<T>, found: seq<T>)
    requires q' == q + found && rest == found + rest'
    ensures q' + rest' == q + rest
  {
  }

  /** The smaller of the two indices: the row in which the scan meets the pair. */
  function Row(a: nat, b: nat): nat
  {
    if a < b then a else b
  }

  /** The larger of the two indices: the column in which the scan meets the pair. */
  function Column(a: nat, b: nat): nat
  {
    if a < b then b else a
  }

  /** The tasks a pair contributes, counted one by one. */
  lemma PairTasksCount(vs: seq<NpcView>, i: nat, j: nat, a: nat, b: nat)
    requires i < j < |vs| && vs[i].alive && vs[j].alive
    ensures multiset(PairTasks(vs, i, j))[BattleTask(a, b)] ==
      if Threatens(vs, a, b) && ((a == i && b == j) || (a == j && b == i)) then 1 else 0
  {
    DistanceIsSymmetric(vs[i].position, vs[j].position);
  }

  /** Column j of row i adds its own tasks to the count of the columns after it. */
  lemma RowFromCountStep(vs: seq<NpcView>, i: nat, j: nat, a: nat, b: nat)
    requires i < j < |vs| && vs[i].alive
    requires multiset(RowFrom(vs, i, j + 1))[BattleTask(a, b)] ==
      if Threatens(vs, a, b) && Row(a, b) == i && Column(a, b) >= j + 1 then 1 else 0
    ensures multiset(RowFrom(vs, i, j))[BattleTask(a, b)] ==
      if Threatens(vs, a, b) && Row(a, b) == i && Column(a, b) >= j then 1 else 0
  {
    var here := if vs[j].alive then PairTasks(vs, i, j) else [];
    assert RowFrom(vs, i, j) == here + RowFrom(vs, i, j + 1);
    var atPair := (a == i && b == j) || (a == j && b == i);
    assert a != b ==> (Row(a, b) == i && Column(a, b) >= j <==> (Row(a, b) == i && Column(a, b) >= j + 1) || atPair);
    if vs[j].alive {
      PairTasksCount(vs, i, j, a, b);
    } else {
      assert atPair ==> !Threatens(vs, a, b);
    }
  }

  /** Row i from column j on holds each threatening ordered pair of i and a later NPC exactly once. */
  lemma {:induction false} RowFromCount(vs: seq<NpcView>, i: nat, j: nat, a: nat, b: nat)
    requires i < j && i < |vs| && vs[i].alive
    ensures multiset(RowFrom(vs, i, j))[BattleTask(a, b)] ==
      if Threatens(vs, a, b) && Row(a, b) == i && Column(a, b) >= j then 1 else 0
    decreases |vs| - j
  {
    if j < |vs| {
      RowFromCount(vs, i, j + 1, a, b);
      RowFromCountStep(vs, i, j, a, b);
    }
  }

  /** From row i on, the scan queues each threatening ordered pair met in those rows exactly once. */
  lemma {:induction false} RowsFromCount(vs: seq<NpcView>, i: nat, a: nat, b: nat)
    ensures multiset(RowsFrom(vs, i))[BattleTask(a, b)] == if Threatens(vs, a, b) && Row(a, b) >= i then 1 else 0
    decreases |vs| - i
  {
    if i < |vs| {
      RowsFromCount(vs, i + 1, a, b);
      if vs[i].alive {
        RowFromCount(vs, i, i + 1, a, b);
      }
    }
  }

  /**
   * The scan queues the task (a, b) exactly once when a and b are two
   * different living NPCs with b within a's kill distance, and never
   * otherwise. The scan does not consult vs: an NPC that cannot kill the
   * other is queued all the same.
   */
  lemma DiscoverExactly(vs: seq<NpcView>, a: nat, b: nat)
    ensures multiset(Discover(vs))[BattleTask(a, b)] == if Threatens(vs, a, b) then 1 else 0
  {
    RowsFromCount(vs, 0, a, b);
  }

  /** Every task the scan queues names two NPCs of the list. */
  lemma DiscoverInRange(vs: seq<NpcView>)
    ensures forall t :: t in Discover(vs) ==> InRange(t, |vs|)
  {
    forall t | t in Discover(vs)
      ensures InRange(t, |vs|)
    {
      DiscoverExactly(vs, t.attacker, t.target);
    }
  }

  /** Two squirrels side by side queue a fight each way, though neither can kill the other. */
  lemma SquirrelsAreQueued(x: NpcView, y: NpcView)
    requires x.kind == Squirrel && y.kind == Squirrel && x.alive && y.alive && x.position == y.position
    ensures Discover([x, y]) == [BattleTask(0, 1), BattleTask(1, 0)]
  {
    var vs := [x, y];
    SelfIsWithinAnyRadius(x.position, KillDistance(Squirrel));
    assert PairTasks(vs, 0, 1) == [BattleTask(0, 1), BattleTask(1, 0)];
    assert RowFrom(vs, 0, 2) == [] && RowsFrom(vs, 2) == [];
    assert RowsFrom(vs, 1) == RowFrom(vs, 1, 2) + RowsFrom(vs, 2) == [];
    assert RowFrom(vs, 0, 1) == PairTasks(vs, 0, 1) + RowFrom(vs, 0, 2);
  }

  // ---------------------------------------------------------------------
  // Properties of process_battle and of the battle worker.

  /**
   * process_battle never changes the attacker or any NPC but the target; the
   * target dies exactly when it was alive, the attacker is alive and can kill
   * it, and the attack roll is higher than the defence roll.
   */
  lemma StrikeRules(vs: seq<NpcView>, t: BattleTask, roll: DiceRoll)
    requires InRange(t, |vs|)
    ensures forall k :: 0 <= k < |vs| && k != t.target ==> Strike(vs, t, roll)[k] == vs[k]
    ensures Strike(vs, t, roll)[t.attacker] == vs[t.attacker]
    ensures Strike(vs, t, roll)[t.target] == vs[t.target].(alive := vs[t.target].alive &&
      !(vs[t.attacker].alive && Kills(vs[t.attacker].kind, vs[t.target].kind) && roll.attack > roll.defense))
    ensures roll.attack <= roll.defense ==> Strike(vs, t, roll) == vs
  {
    MatchupIsAsymmetric(vs[t.attacker].kind, vs[t.attacker].kind);
  }

  /** Draining the queue can only kill: names, kinds and positions stay, and nobody comes back to life. */
  lemma {:induction false} DrainOnlyKills(vs: seq<NpcView>, queue: seq<BattleTask>, dice: nat -> DiceRoll, k: nat)
    requires forall t :: t in queue ==> InRange(t, |vs|)
    ensures forall n :: 0 <= n < |vs| ==>
      var w := Drain(vs, queue, dice, k)[n];
      w == vs[n].(alive := w.alive) && (w.alive ==> vs[n].alive)
    decreases |queue|
  {
    if queue != [] {
      var t := queue[0];
      assert t in queue;
      var vs' := if vs[t.attacker].alive && vs[t.target].alive then Strike(vs, t, dice(k)) else vs;
      StrikeRules(vs, t, dice(k));
      DrainOnlyKills(vs', queue[1..], dice, k + 1);
    }
  }

  /** An NPC dies while the queue drains only if some queued task sends against it an NPC that can kill it. */
  lemma {:induction false} DrainDeathsHaveKillers(vs: seq<NpcView>, queue: seq<BattleTask>, dice: nat -> DiceRoll, k: nat, b: nat)
    requires forall t :: t in queue ==> InRange(t, |vs|)
    requires b < |vs| && vs[b].alive && !Drain(vs, queue, dice, k)[b].alive
    ensures exists t :: t in queue && t.target == b && Kills(vs[t.attacker].kind, vs[b].kind)
    decreases |queue|
  {
    var t := queue[0];
    assert t in queue;
    var vs' := if vs[t.attacker].alive && vs[t.target].alive then Strike(vs, t, dice(k)) else vs;
    StrikeRules(vs, t, dice(k));
    if !vs'[b].alive {
      assert t.target == b;
    } else {
      DrainDeathsHaveKillers(vs', queue[1..], dice, k + 1, b);
      var t' :| t' in queue[1..] && t'.target == b && Kills(vs'[t'.attacker].kind, vs'[b].kind);
      assert t' in queue;
    }
  }

  /**
   * One round of the game from an empty queue (scan, then drain): an NPC dies
   * only if a living NPC that can kill it had it within its kill distance.
   */
  lemma ScanThenDrainKillsOnlyPrey(vs: seq<NpcView>, dice: nat -> DiceRoll, b: nat)
    requires b < |vs| && vs[b].alive
    requires (DiscoverInRange(vs); !Drain(vs, Discover(vs), dice, 0)[b].alive)
    ensures exists a: nat :: Threatens(vs, a, b) && Kills(vs[a].kind, vs[b].kind)
  {
    DiscoverInRange(vs);
    DrainDeathsHaveKillers(vs, Discover(vs), dice, 0, b);
    var t :| t in Discover(vs) && t.target == b && Kills(vs[t.attacker].kind, vs[b].kind);
    DiscoverExactly(vs, t.attacker, b);
  }

  /** Where no NPC can kill any other (only squirrels, say), draining the queue changes nothing. */
  lemma {:induction false} DrainWithoutPrey(vs: seq<NpcView>, queue: seq<BattleTask>, dice: nat -> DiceRoll, k: nat)
    requires forall t :: t in queue ==> InRange(t, |vs|)
    requires forall a, b :: a in vs && b in vs ==> !Kills(a.kind, b.kind)
    ensures Drain(vs, queue, dice, k) == vs
    decreases |queue|
  {
    if queue != [] {
      var t := queue[0];
      assert t in queue;
      assert !Kills(vs[t.attacker].kind, vs[t.target].kind);
      DrainWithoutPrey(vs, queue[1..], dice, k + 1);
    }
  }

  /** When every defence roll is at least the attack roll, draining the queue changes nothing. */
  lemma {:induction false} DrainDefenceHolds(vs: seq<NpcView>, queue: seq<BattleTask>, dice: nat -> DiceRoll, k: nat)
    requires forall t :: t in queue ==> InRange(t, |vs|)
    requires forall n: nat :: dice(n).attack <= dice(n).defense
    ensures Drain(vs, queue, dice, k) == vs
    decreases |queue|
  {
    if queue != [] {
      var t := queue[0];
      assert t in queue;
      StrikeRules(vs, t, dice(k));
      DrainDefenceHolds(vs, queue[1..], dice, k + 1);
    }
  }

  // ---------------------------------------------------------------------
  // Properties of get_survivors.

  /** get_survivors lists exactly the living NPCs, one label each. */
  lemma {:induction false} SurvivorsAreTheLiving(vs: seq<NpcView>)
    ensures |Survivors(vs)| == AliveCount(vs)
    ensures forall s :: s in Survivors(vs) <==> exists v :: v in vs && v.alive && s == Label(v)
  {
    if vs != [] {
      SurvivorsAreTheLiving(vs[1..]);
      assert forall v :: v in vs <==> v == vs[0] || v in vs[1..];
    }
  }
}
