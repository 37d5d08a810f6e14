/**
 * BattleVisitor (src/battle/battle_visitor.cpp): one fight between the
 * current attacker and a visited target, with every kill published to the
 * visitor's observers.
 *
 * The value-level functions Clash and Fight say what a fight does to the two
 * NPCs and which events it publishes; the class methods are proved to do
 * exactly that to the objects.
 */
module Battle {
  import opened Wrappers
  import opened Geometry
  import opened Npcs
  import opened Events

  /** The text notify_kill publishes: the vs message, then who killed whom. */
  function KillAction(action: string, killer: string, victim: string): string
  {
    action + " (" + killer + " убивает " + victim + ")"
  }

  /** The event published for a kill. */
  function KillEvent(action: string, killer: string, victim: string): BattleEvent
  {
    BattleEvent(KillAction(action, killer, victim))
  }

  /** The two NPCs after a fight and the events it published, in order. */
  datatype Aftermath = Aftermath(attacker: NpcView, target: NpcView, events: seq<BattleEvent>)

  /**
   * execute_battle_logic: both vs results are taken first; then the target is
   * killed if the attacker's vs succeeded, and the attacker if the target's did.
   */
  function Clash(a: NpcView, t: NpcView): (o: Aftermath)
    ensures o.target == t.(alive := t.alive && !(a.alive && Kills(a.kind, t.kind)))
    ensures o.attacker == a.(alive := a.alive && !(t.alive && Kills(t.kind, a.kind)))
    ensures |o.events| == (if o.target != t then 1 else 0) + (if o.attacker != a then 1 else 0)
  {
    var action1 := Vs(a, t);
    var action2 := Vs(t, a);
    var t' := if action1.Some? then t.(alive := false) else t;
    var e1 := if action1.Some? then [KillEvent(action1.value, a.name, t.name)] else [];
    var a' := if action2.Some? then a.(alive := false) else a;
    var e2 := if action2.Some? then [KillEvent(action2.value, t.name, a.name)] else [];
    Aftermath(a', t', e1 + e2)
  }

  /** The guard of perform_battle: both alive and no farther apart than the radius. */
  predicate Engaged(a: NpcView, t: NpcView, radius: int)
  {
    a.alive && t.alive && WithinRadius(a.position.DistanceSquaredTo(t.position), radius)
  }

  /** perform_battle on values: nothing happens unless the two are engaged. */
  function Fight(a: NpcView, t: NpcView, radius: int): (o: Aftermath)
    ensures !Engaged(a, t, radius) ==> o == Aftermath(a, t, [])
    ensures Engaged(a, t, radius) ==> o == Clash(a, t)
  {
    if Engaged(a, t, radius) then Clash(a, t) else Aftermath(a, t, [])
  }

  /** Every notify call publishing the events, event by event. */
  function Broadcast(observers: seq<ObserverRef>, es: seq<BattleEvent>): seq<Delivery>
  {
    if es == [] then [] else Deliveries(observers, es[0]) + Broadcast(observers, es[1..])
  }

  /** Publishing two batches of events one after the other notifies as the whole batch does. */
  lemma {:induction false} BroadcastAppend(observers: seq<ObserverRef>, a: seq<BattleEvent>, b: seq<BattleEvent>)
    ensures Broadcast(observers, a + b) == Broadcast(observers, a) + Broadcast(observers, b)
  {
    if a == [] {
      assert a + b == b;
    } else {
      assert (a + b)[1..] == a[1..] + b;
      BroadcastAppend(observers, a[1..], b);
    }
  }

  class BattleVisitor {
    var attacker: Npc?
    const radius: int
    const events: EventManager

    constructor (radius: int)
      ensures this.radius == radius && attacker == null
      ensures fresh(events) && events.observers == []
    {
      this.radius := radius;
      attacker := null;
      events := new EventManager();
    }

    method SetAttacker(a: Npc?)
      modifies this
      ensures attacker == a
    {
      attacker := a;
    }

    /** subscribe: forwarded to the visitor's own event manager. */
    method Subscribe(o: ObserverRef)
      modifies events
      ensures events.observers == if o == NullObserver then old(events.observers) else old(events.observers) + [o]
    {
      events.Subscribe(o);
    }

    /** notify_kill: publishes one kill event to every observer. */
    method NotifyKill(action: string, killer: string, victim: string) returns (delivered: seq<Delivery>)
      ensures delivered == Deliveries(events.observers, KillEvent(action, killer, victim))
    {
      delivered := events.Publish(KillEvent(action, killer, victim));
    }

    /** execute_battle_logic on the two objects. */
    method ExecuteBattleLogic(a: Npc, t: Npc) returns (delivered: seq<Delivery>)
      modifies a, t
      ensures a.View() == Clash(old(a.View()), old(t.View())).attacker
      ensures t.View() == Clash(old(a.View()), old(t.View())).target
      ensures delivered == Broadcast(events.observers, Clash(old(a.View()), old(t.View())).events)
    {
      ghost var o := Clash(a.View(), t.View());
      var action1 := Vs(a.View(), t.View());
      var action2 := Vs(t.View(), a.View());
      MatchupIsAsymmetric(a.kind, t.kind);
      delivered := [];
      if action1.Some? {
        t.Kill();
        delivered := NotifyKill(action1.value, a.name, t.name);
      }
      if action2.Some? {
        a.Kill();
        var d := NotifyKill(action2.value, t.name, a.name);
        delivered := delivered + d;
      }
      assert |o.events| <= 1;
      if o.events != [] {
        assert o.events[1..] == [];
      }
    }

    /**
     * perform_battle (and the three visit overloads, which only forward to
     * it): a fight between the current attacker and `target`, when there is an
     * attacker.
     */
    method PerformBattle(target: Npc) returns (delivered: seq<Delivery>)
      modifies attacker, target
      ensures attacker == null ==> target.View() == old(target.View()) && delivered == []
      ensures attacker != null ==>
        && attacker.View() == Fight(old(attacker.View()), old(target.View()), radius).attacker
        && target.View() == Fight(old(attacker.View()), old(target.View()), radius).target
        && delivered == Broadcast(events.observers, Fight(old(attacker.View()), old(target.View()), radius).events)
    {
      if attacker == null || !attacker.alive || !target.alive {
        return [];
      }
      var d2 := attacker.position.DistanceSquaredTo(target.position);
      if !WithinRadius(d2, radius) {
        return [];
      }
      delivered := ExecuteBattleLogic(attacker, target);
    }
  }

  // ---------------------------------------------------------------------
  // Properties of a fight.

  /** A fight kills at most one of the two, and publishes at most one event. */
  lemma AtMostOneDies(a: NpcView, t: NpcView, radius: int)
    ensures Fight(a, t, radius).attacker == a || Fight(a, t, radius).target == t
    ensures |Fight(a, t, radius).events| <= 1
  {
    MatchupIsAsymmetric(a.kind, t.kind);
  }

  /**
   * Who started the fight does not matter: swapping attacker and target swaps
   * the two results and publishes the same events.
   */
  lemma FightIsSymmetric(a: NpcView, t: NpcView, radius: int)
    ensures Fight(t, a, radius) == Aftermath(Fight(a, t, radius).target, Fight(a, t, radius).attacker, Fight(a, t, radius).events)
  {
    DistanceIsSymmetric(a.position, t.position);
    MatchupIsAsymmetric(a.kind, t.kind);
  }

  /** Each published event names the killer and the victim and carries the killer's vs message. */
  lemma FightEventsDescribeKills(a: NpcView, t: NpcView, radius: int)
    ensures Fight(a, t, radius).target != t ==>
      Fight(a, t, radius).events == [KillEvent(Vs(a, t).value, a.name, t.name)]
    ensures Fight(a, t, radius).attacker != a ==>
      Fight(a, t, radius).events == [KillEvent(Vs(t, a).value, t.name, a.name)]
  {
    MatchupIsAsymmetric(a.kind, t.kind);
  }

  /** An orc 5 cells from a druid kills it in a fight of radius 5, but not of radius 4. */
  lemma OrcMeetsDruid()
    ensures
      var orc := NpcView("Grom", Orc, Point(0, 0), true);
      var druid := NpcView("Elf", Druid, Point(3, 4), true);
      && Fight(orc, druid, 5) == Aftermath(orc, druid.(alive := false),
           [KillEvent(OrcKillsDruid, "Grom", "Elf")])
      && Fight(druid, orc, 5) == Aftermath(druid.(alive := false), orc,
           [KillEvent(OrcKillsDruid, "Grom", "Elf")])
      && Fight(orc, druid, 4) == Aftermath(orc, druid, [])
  {
    ThreeFourFive();
    var orc := NpcView("Grom", Orc, Point(0, 0), true);
    var druid := NpcView("Elf", Druid, Point(3, 4), true);
    assert orc.position == Origin();
    DistanceIsSymmetric(orc.position, druid.position);
    OrcDruidAsymmetry(orc, druid);
  }
}
