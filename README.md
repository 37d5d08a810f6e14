# Dungeon NPC rules engine, in Dafny

This project models the rules engine of a small dungeon game written in C++.
The dungeon holds NPCs of three kinds: orcs, druids and squirrels. Each NPC has a
name, a position on an integer grid and a one-way `alive` flag. The matchup
is fixed and asymmetric. An orc kills a druid, a druid kills a squirrel, and
a squirrel kills nobody.

The model covers these parts of the system, one Dafny file per part:

- `geometry.dfy` (module `Geometry`): points and their distance. A 32-bit
  coordinate is the newtype `Int32`. Distance is compared through its square,
  so every "within radius" test is an exact integer comparison.
- `npc.dfy` (module `Npcs`): the kinds, their type strings, the `vs` matchup
  of each subclass, and the NPC object with its in-place `Kill`. Every
  property of a population is stated over its value snapshot, `NpcView`.
- `factory.dfy` (module `Factory`):
  - `create`, a lookup over the registered creators;
  - the line format `name type x y` used by load and save, modelled on characters,
    with `>>` extraction written out: whitespace skipping, the sign, the digits,
    and the 32-bit range check;
  - the save/load round trip.
- `event_manager.dfy` (module `Events`): the observer list with subscribe,
  unsubscribe and publish. A notify call is recorded as a `Delivery`.
- `battle_visitor.dfy` (module `Battle`): the one-pair fight. It has guards,
  it evaluates both `vs` results before any kill, and it publishes one kill
  event per death.
- `dungeon.dfy` (module `Dungeon`): the editor's list of NPCs.
  - Adding rejects a taken name and an unknown type.
  - There are counting and name lookup.
  - Load replaces the list only when the file opens; save writes the lines.
  - The battle round visits the pairs `i < j` in loop order.
  - Compaction of the dead keeps order.
- `game.dfy` (module `Game`): the sequential parts of the real-time game.
  - The discovery scan fills the battle queue.
  - The battle worker drains the queue and drops stale tasks.
  - `process_battle` is gated by dice, which come in as a parameter.
  - The survivors list.

Each state-changing method is proved against a function of the state it
starts from. The method's `ensures` is that tie. The lemmas then prove what
the program promises about those functions. Examples:

- saving and loading gives back the living NPCs;
- a battle round leaves no fight unfought, so a second round changes nothing;
- the scan queues each threatening pair exactly once;
- an NPC dies in the game only if some living NPC that can kill it had it
  within kill distance.

Two consequences of the code are worth stating on their own:

- The game's scan never consults `vs` (src/game/game.cpp:118-128). It
  queues every pair within kill distance, so two squirrels side by side
  queue two tasks, which `process_battle` then discards
  (`Game.SquirrelsAreQueued`, `Game.DrainWithoutPrey`).
- `execute_battle_logic` evaluates both `vs` results before any kill
  (src/battle/battle_visitor.cpp:37-53). But no two kinds kill each other,
  so at most one NPC dies per fight (`Battle.AtMostOneDies`).

## Model

| member | source | states |
|---|---|---|
| Geometry.Origin | src/geometry/point.cpp:3 | The default point is (0, 0). |
| Geometry.Point.SetX | src/geometry/point.cpp:11 | set_x changes x to the new value and leaves y alone. |
| Geometry.Point.SetY | src/geometry/point.cpp:13 | set_y changes y to the new value and leaves x alone. |
| Geometry.Point.DistanceSquaredTo | src/geometry/point.cpp:15 | The squared distance is zero exactly when the two points are the same point. |
| Geometry.DistanceIsSymmetric | src/geometry/point.cpp:15 | Distance from p to q equals distance from q to p. |
| Geometry.SelfIsWithinAnyRadius | src/geometry/point.cpp:15 | A point is at distance 0 from itself, so it is within any non-negative radius of itself. |
| Geometry.ThreeFourFive | src/geometry/point.cpp:15 | (0,0) to (3,4) is at squared distance 25: within radius 5, not within radius 4. |
| Geometry.BoundaryIsInRange | src/battle/battle_visitor.cpp:30 | The radius test is inclusive: a point exactly `radius` away is in range. |
| Npcs.TypeName | src/npc/orc.cpp:6-8 | get_type gives "Орк", "Друид" or "Белка", each exactly for its own kind. |
| Npcs.OrcVs | src/npc/orc.cpp:14-26 | An orc's vs gives the orc narrative exactly when both are alive and the target is a druid, and nothing otherwise. |
| Npcs.DruidVs | src/npc/druid.cpp:14-26 | A druid's vs gives the druid narrative exactly when both are alive and the target is a squirrel, and nothing otherwise. |
| Npcs.SquirrelVs | src/npc/squirrel.cpp:15-17 | A squirrel's vs gives nothing, whatever the two NPCs are. |
| Npcs.Vs | src/npc/orc.cpp:14-26 | The dispatched vs kills exactly when both NPCs are alive and the matchup matrix lets the attacker's kind kill the target's kind. |
| Npcs.MatchupIsAsymmetric | src/npc/druid.cpp:18-25 | If kind a kills kind b, b does not kill a, and no kind kills its own kind. |
| Npcs.VsIgnoresNamesAndPositions | src/npc/orc.cpp:14-26 | vs depends only on the kinds and the alive flags, not on names or positions, even equal ones. |
| Npcs.OrcDruidAsymmetry | src/npc/druid.cpp:18-25 | A living orc against a living druid kills it, but the druid against the orc does not. |
| Npcs.Npc.constructor | src/npc/npc.cpp:3-4 | A new NPC holds the given name, kind and position and is alive. |
| Npcs.Npc.Kill | src/npc/npc.cpp:18-20 | After kill the NPC is dead, also when it already was, and its name, kind and position are unchanged. |
| Npcs.AliveCountFull | src/dungeon/dungeon.cpp:99-104 | The alive count equals the list's length exactly when nobody in it is dead. |
| Npcs.LiveOnlyMembers | src/dungeon/dungeon.cpp:117-125 | After compaction, the NPCs left are exactly the living ones of the list, and there are as many as the alive count. |
| Npcs.LiveOnlyAppend | src/dungeon/dungeon.cpp:117-125 | Compaction keeps relative order: filtering a concatenation filters each part. |
| Npcs.AliveCountAppend | src/dungeon/dungeon.cpp:99-104 | The alive count of a concatenation is the sum of the parts' counts. |
| Npcs.AliveCountUpdate | src/dungeon/dungeon.cpp:99-104 | Replacing one NPC changes the alive count by the difference between what the old and the new one contribute. |
| Npcs.LiveOnlyIdempotent | src/dungeon/dungeon.cpp:117-125 | Compacting an already compacted list changes nothing. |
| Factory.LookupFinds | src/npc/npc_factory.cpp:31-35 | The creator lookup returns a registered entry for the type, and finds nothing only when no entry has that type string. |
| Factory.CreateSucceedsExactlyForRegisteredTypes | src/npc/npc_factory.cpp:28-37 | create succeeds exactly for the three registered type strings. It then gives a living NPC of that type with the given name and position. Any other string fails with the unknown-type message. |
| Factory.CreateOfTypeName | src/npc/npc_factory.cpp:14-26 | Each kind is registered under its own get_type string: creating from it gives an NPC of that kind. |
| Factory.WordLengthIsMaximal | src/npc/npc_factory.cpp:53 | A word extracted by `>>` is the maximal run of non-whitespace. |
| Factory.DigitRunIsMaximal | src/npc/npc_factory.cpp:53 | An int extracted by `>>` reads the maximal run of digits. |
| Factory.ReadWord | src/npc/npc_factory.cpp:53 | `>> word` yields a non-empty word and consumes input. |
| Factory.ReadFields | src/npc/npc_factory.cpp:53 | A chain of `>>` extractions yields one field per extraction, or fails as a whole. |
| Factory.AnySpaceIsSkipped | src/npc/npc_factory.cpp:53 | A leading whitespace character of any C-locale kind (blank, tab, newline, vertical tab, form feed, carriage return) does not change what `>>` extracts, word or int. |
| Factory.BlankIsSkipped | src/npc/npc_factory.cpp:53 | A leading blank, the separator save writes, does not change what `>>` extracts. |
| Factory.LoadLine | src/npc/npc_factory.cpp:53-60 | A line that loads yields a living NPC. |
| Factory.LoadFromLines | src/npc/npc_factory.cpp:39-65 | load_from_file gives one fresh NPC object for each loadable line, in file order, none of them twice. |
| Factory.LoadedAppend | src/npc/npc_factory.cpp:47-62 | Lines load independently and in file order: loading a concatenation loads each part. |
| Factory.EndOfLineReadsNothing | src/npc/npc_factory.cpp:53 | At the end of a line, `>>` of a word or an int fails. |
| Factory.ReadFieldsFailStep | src/npc/npc_factory.cpp:53 | When a later extraction of the chain fails, the whole chain fails. |
| Factory.ShortLineIsSkipped | src/npc/npc_factory.cpp:53 | A line holding a name, a type and only one int fails the fourth extraction and loads nothing. |
| Factory.TwoWordsAreSkipped | src/npc/npc_factory.cpp:53 | A line holding only a name and a type loads nothing. |
| Factory.UnknownTypeIsSkipped | src/npc/npc_factory.cpp:53-60 | A line with all four fields whose type is not registered makes create fail, so the line loads nothing. |
| Factory.LoadedAllAlive | src/npc/npc_factory.cpp:39-65 | Every loaded NPC is alive. |
| Factory.ShowNatValue | src/npc/npc_factory.cpp:79-80 | Reading back the decimal digits written for a number gives the number. |
| Factory.SignedOfShown | src/npc/npc_factory.cpp:79-80 | Reading back a written int, sign included, gives the int. |
| Factory.IntThenRest | src/npc/npc_factory.cpp:53 | `>> int` on a blank, a written coordinate and the rest of the line gives the coordinate and leaves the rest. |
| Factory.SaveToLines | src/npc/npc_factory.cpp:67-83 | save_to_file writes the line `name type x y` for each living NPC, in list order, and none for a dead one. |
| Factory.Saved | src/npc/npc_factory.cpp:75-81 | Save writes at most one line per NPC. |
| Factory.WordAndCoordinatesReadBack | src/npc/npc_factory.cpp:53 | A word followed by two written ints reads back as that word and the two ints. |
| Factory.LineFieldsReadBack | src/npc/npc_factory.cpp:53 | A line `name type x y` with whitespace-free, non-empty words reads back as its four fields. |
| Factory.WordThenFields | src/npc/npc_factory.cpp:53 | A word, a blank and fields that read back give the word followed by those fields. |
| Factory.NameThenFields | src/npc/npc_factory.cpp:53 | A name, a blank and the three later fields read back as a whole record. |
| Factory.FieldsReadBack | src/npc/npc_factory.cpp:53 | The four fields of a saved line read back as the NPC's name, type string and coordinates. |
| Factory.SaveLineRoundTrip | src/npc/npc_factory.cpp:75-81 | A saved line loads back as the NPC it was written from, alive, when the name is non-empty and has no whitespace. |
| Factory.SaveLoadRoundTrip | src/npc/npc_factory.cpp:39-83 | Loading the saved lines gives back exactly the living NPCs, in order, with the same names, kinds and positions, when every living NPC's name is non-empty and has no whitespace. Dead NPCs are never written, so their names do not matter. |
| Events.EventManager.constructor | src/battle/event_manager.cpp:34 | A new event manager has no observers. |
| Events.EventManager.Subscribe | src/battle/event_manager.cpp:12-16 | subscribe appends a non-null observer at the end, duplicates included, and ignores null. |
| Events.EventManager.Unsubscribe | src/battle/event_manager.cpp:18-23 | unsubscribe leaves the list with every occurrence of the observer removed and the rest in order. |
| Events.EventManager.Publish | src/battle/event_manager.cpp:25-31 | publish makes one notify call per non-null entry, in list order, and leaves the list unchanged. |
| Events.Without | src/battle/event_manager.cpp:18-23 | Removing an observer never lengthens the list. |
| Events.Deliveries | src/battle/event_manager.cpp:25-31 | publish makes at most one notify call per entry. |
| Events.WithoutCounts | src/battle/event_manager.cpp:18-23 | After unsubscribe, the observer occurs zero times and every other observer as often as before. |
| Events.WithoutAbsent | src/battle/event_manager.cpp:18-23 | Unsubscribing an observer that is not subscribed changes nothing. |
| Events.WithoutIdempotent | src/battle/event_manager.cpp:18-23 | Unsubscribing twice is unsubscribing once. |
| Events.WithoutAppend | src/battle/event_manager.cpp:18-23 | Removal works element by element, so it distributes over concatenation. |
| Events.DeliveriesAppend | src/battle/event_manager.cpp:25-31 | Publishing to a concatenated list notifies the first part, then the second. |
| Events.DeliveriesFollowList | src/battle/event_manager.cpp:25-31 | The k-th notify call goes to the k-th non-null observer of the list. |
| Events.DeliveriesPerObserver | src/battle/event_manager.cpp:25-31 | An observer subscribed n times is notified n times per publish. |
| Battle.Clash | src/battle/battle_visitor.cpp:37-53 | Both vs results are taken from the state before the fight. The target dies exactly when the attacker could kill it, and the attacker dies exactly when the target could kill it. One event is published per death. |
| Battle.Fight | src/battle/battle_visitor.cpp:23-35 | Unless both are alive and within the radius, nothing changes and nothing is published; otherwise the fight is Clash. |
| Battle.BroadcastAppend | src/battle/battle_visitor.cpp:55-59 | Publishing two batches of events one after the other makes the notify calls of the whole batch. |
| Battle.BattleVisitor.constructor | src/battle/battle_visitor.cpp:8-9 | A new visitor has the given radius, no attacker and no observers. |
| Battle.BattleVisitor.SetAttacker | src/battle/battle_visitor.cpp:11-13 | set_attacker makes the given NPC, or none, the current attacker. |
| Battle.BattleVisitor.Subscribe | src/battle/battle_visitor.cpp:19-21 | subscribe forwards to the event manager: non-null observers are appended. |
| Battle.BattleVisitor.NotifyKill | src/battle/battle_visitor.cpp:55-59 | notify_kill publishes one event, `action (killer убивает victim)`, to every observer. |
| Battle.BattleVisitor.ExecuteBattleLogic | src/battle/battle_visitor.cpp:37-53 | The two NPC objects end as Clash says, and the notify calls are those of Clash's events. |
| Battle.BattleVisitor.PerformBattle | src/battle/battle_visitor.cpp:23-35 | With no attacker, the target is unchanged and nothing is published. Otherwise both objects end as Fight says, with Fight's notify calls. The three visit overloads (lines 61-71) only forward here. |
| Battle.AtMostOneDies | src/battle/battle_visitor.cpp:37-53 | A fight kills at most one of the two and publishes at most one event. |
| Battle.FightIsSymmetric | src/battle/battle_visitor.cpp:23-53 | Swapping attacker and target swaps the results and publishes the same events. |
| Battle.FightEventsDescribeKills | src/battle/battle_visitor.cpp:43-59 | The event for a kill carries the killer's vs narrative and names the killer and the victim, in that order. |
| Battle.OrcMeetsDruid | src/battle/battle_visitor.cpp:23-35 | An orc and a druid 5 apart: the druid dies at radius 5 whichever attacks, and nothing happens at radius 4. |
| Dungeon.DungeonEditor.constructor | src/dungeon/dungeon.cpp:12-15 | A new editor has no NPCs. |
| Dungeon.DungeonEditor.IsNameExists | src/dungeon/dungeon.cpp:106-111 | is_name_exists holds exactly when some NPC in the list, alive or dead, has the name. |
| Dungeon.DungeonEditor.GetAliveCount | src/dungeon/dungeon.cpp:99-104 | get_alive_count is the number of living NPCs. |
| Dungeon.DungeonEditor.AddNpc | src/dungeon/dungeon.cpp:24-36 | add_npc leaves the list unchanged if the name is taken or create fails. Otherwise it appends the created NPC as a fresh object. |
| Dungeon.DungeonEditor.CleanupDeadNpcs | src/dungeon/dungeon.cpp:117-125 | cleanup_dead_npcs keeps exactly the living NPCs, in order, as the same objects. |
| Dungeon.DungeonEditor.RemoveDeadNpcs | src/dungeon/dungeon.cpp:113-115 | remove_dead_npcs does what cleanup_dead_npcs does. |
| Dungeon.DungeonEditor.LoadFromFile | src/dungeon/dungeon.cpp:47-55 | A file that cannot be opened leaves the list unchanged. Otherwise the list is replaced by fresh NPCs loaded from the file's lines. |
| Dungeon.DungeonEditor.SaveToFile | src/dungeon/dungeon.cpp:38-45 | save_to_file writes the saved lines of the current list. |
| Dungeon.DungeonEditor.VisitPair | src/dungeon/dungeon.cpp:87-88 | With npcs[i] set as attacker and npcs[j] visited, the list ends as one Encounter of the pair says, with its notify calls. |
| Dungeon.DungeonEditor.VisitNext | src/dungeon/dungeon.cpp:82-89 | One pass of the inner loop leaves the list as one Encounter of the pair (i, j) says and appends that Encounter's events. A pair that fails the guards changes nothing, by EncounterOutOfReach. |
| Dungeon.DungeonEditor.AttackFrom | src/dungeon/dungeon.cpp:79-90 | The inner loop leaves the list as SweepRow, row i of the round, says and appends that row's events. If npcs[i] was dead, nothing changes and nothing is published. |
| Dungeon.SweepByRows | src/dungeon/dungeon.cpp:78-91 | The round is its rows in order: row i from column j, then the round from row i + 1. |
| Dungeon.RowSkipsDead | src/dungeon/dungeon.cpp:79 | A dead attacker's row changes nothing and publishes nothing. |
| Dungeon.DungeonEditor.VisitAllPairs | src/dungeon/dungeon.cpp:78-91 | The two loops leave the list as Sweep from (0, 1) says and make its notify calls. |
| Dungeon.DungeonEditor.StartBattle | src/dungeon/dungeon.cpp:70-97 | start_battle leaves the list as BattleRound says: the pairs visited in order, then the dead removed. Every kill event goes to the console and log observers. Only existing NPC objects remain. |
| Dungeon.Encounter | src/dungeon/dungeon.cpp:87-88 | A visit keeps the list's length. |
| Dungeon.EncounterOutOfReach | src/dungeon/dungeon.cpp:82-89 | A pair that is dead or out of reach changes nothing and publishes nothing. |
| Dungeon.SweepPastUnreachable | src/dungeon/dungeon.cpp:82-89 | The round passes over a pair that is not engaged. |
| Dungeon.SweepSkipsDead | src/dungeon/dungeon.cpp:79 | A dead attacker's whole row is skipped. |
| Dungeon.AddNpcRules | src/dungeon/dungeon.cpp:24-36 | add_npc changes the list exactly when the name is free and the type is registered. The change is then one living NPC of that type, name and position appended at the end. |
| Dungeon.AddNpcKeepsNamesUnique | src/dungeon/dungeon.cpp:26-28 | A list whose names are unique stays so after add_npc. |
| Dungeon.EncounterOnlyKills | src/dungeon/dungeon.cpp:87-88 | A visit changes no name, kind or position and brings nobody back to life. |
| Dungeon.SweepOnlyKills | src/dungeon/dungeon.cpp:78-91 | The round keeps the list's length, changes no name, kind or position, and brings nobody back to life. |
| Dungeon.EncounterCountsDeaths | src/dungeon/dungeon.cpp:87-88 | A visit publishes one event per NPC it kills. |
| Dungeon.SweepCountsDeaths | src/dungeon/dungeon.cpp:78-91 | Over the round, the events published equal the deaths. |
| Dungeon.BattleRoundOutcome | src/dungeon/dungeon.cpp:70-97 | After start_battle every remaining NPC is alive. The survivors plus the events published equal the NPCs alive before. |
| Dungeon.TooFewToFight | src/dungeon/dungeon.cpp:78-93 | With zero or one NPC nobody fights: only the already dead are removed and nothing is published. |
| Dungeon.EncounterSettles | src/dungeon/dungeon.cpp:87-88 | After a visit its pair is settled (no killer left among engaged pairs), and the earlier pairs stay settled. |
| Dungeon.SweepSettles | src/dungeon/dungeon.cpp:78-91 | By the end of the round every pair is settled. |
| Dungeon.SettledIsPeaceful | src/dungeon/dungeon.cpp:78-91 | A list whose pairs are all settled has no engaged pair in which one can kill the other. |
| Dungeon.PeacefulSweepIsQuiet | src/dungeon/dungeon.cpp:78-91 | In a peaceful list the round kills nobody and publishes nothing. |
| Dungeon.PeacefulBattleRound | src/dungeon/dungeon.cpp:70-97 | In a peaceful list start_battle only removes the already dead. |
| Dungeon.LiveOnlyKeepsPeace | src/dungeon/dungeon.cpp:117-125 | Removing the dead keeps a list peaceful. |
| Dungeon.BattleRoundIsStable | src/dungeon/dungeon.cpp:70-97 | No two survivors within the radius can kill each other. A second start_battle at the same radius changes nothing and publishes nothing. |
| Dungeon.NoPreyNoBattle | src/dungeon/dungeon.cpp:70-97 | If no kind present can kill another kind present, start_battle only removes the already dead. |
| Game.Game.constructor | src/game/game.cpp:14-22 | A new game holds the given NPCs and an empty battle queue. |
| Game.Game.ScanPair | src/game/game.cpp:107-128 | For a living npcs[j], the pair's tasks are appended: (i, j) if j is within i's kill distance, then (j, i) if i is within j's. No NPC changes. |
| Game.Game.ScanRow | src/game/game.cpp:103-130 | The row of a living npcs[i] appends the tasks of every later living NPC, in order; a dead npcs[i] appends nothing. |
| Game.Game.Scan | src/game/game.cpp:99-131 | The scan appends exactly the tasks Discover lists to the queue and changes no NPC. |
| Game.Game.ProcessBattle | src/game/game.cpp:168-199 | process_battle leaves the NPCs as Strike says for the given dice. |
| Game.Game.TakeTask | src/game/game.cpp:144-161 | The queue loses its head task, which names two NPCs of the list. If both are still alive, the NPCs end as Strike with dice(k) says; otherwise the stale task is dropped and nothing changes. The drain of the rest continues the drain of the whole queue. |
| Game.Game.BattleWorker | src/game/game.cpp:142-166 | The worker empties the queue and leaves the NPCs as Drain over the whole queue says. |
| Game.Game.GetSurvivors | src/game/game.cpp:289-300 | get_survivors lists `name (type)` for each living NPC, in list order. |
| Game.Strike | src/game/game.cpp:168-199 | process_battle keeps the list's length. |
| Game.Drain | src/game/game.cpp:142-166 | Draining the queue keeps the list's length. |
| Game.PairTasksCount | src/game/game.cpp:118-128 | A pair of living NPCs queues each of its two directions exactly once if it threatens, and never otherwise. |
| Game.RowFromCountStep | src/game/game.cpp:107-128 | Column j of row i adds exactly its own threatening directions to the count of the later columns. |
| Game.RowFromCount | src/game/game.cpp:107-129 | Row i from column j on queues each threatening direction between i and a later living NPC exactly once. |
| Game.RowsFromCount | src/game/game.cpp:103-130 | From row i on, each threatening direction whose lower index is at least i is queued exactly once. |
| Game.DiscoverExactly | src/game/game.cpp:99-131 | The scan queues (a, b) exactly once when a and b are different living NPCs with b within a's kill distance, and never otherwise. vs is not consulted. |
| Game.DiscoverInRange | src/game/game.cpp:99-131 | Every queued task names two NPCs of the list. |
| Game.SquirrelsAreQueued | src/game/game.cpp:118-128 | Two living squirrels at the same spot queue a task each way, though neither can kill the other. |
| Game.StrikeRules | src/game/game.cpp:168-199 | process_battle never changes the attacker or any NPC but the target. The target dies exactly when it was alive, the attacker is alive and can kill it, and the attack roll beats the defence roll. A tie changes nothing. |
| Game.DrainOnlyKills | src/game/game.cpp:142-166 | Draining changes no name, kind or position and brings nobody back to life. |
| Game.DrainDeathsHaveKillers | src/game/game.cpp:155-161 | An NPC dies during the drain only if a queued task sends against it an NPC of a kind that kills its kind. |
| Game.ScanThenDrainKillsOnlyPrey | src/game/game.cpp:99-166 | After one scan and drain from an empty queue, an NPC died only if a living NPC that can kill it had it within kill distance. |
| Game.DrainWithoutPrey | src/game/game.cpp:170-173 | If no kind present can kill another kind present, draining the queue changes nothing. |
| Game.DrainDefenceHolds | src/game/game.cpp:180-198 | If every defence roll is at least the attack roll, draining the queue changes nothing. |
| Game.SurvivorsAreTheLiving | src/game/game.cpp:289-300 | There is one survivor entry per living NPC, and the entries are exactly the labels of the living NPCs. |

## Left out

- Distance: `distance_to` computes a `double` square root, and the battle
  radius is a `double`. The model compares the squared integer distance with
  the square of a whole-number radius. A fractional radius is not modelled.
- Geometry.Point.DistanceSquaredTo: the differences `x - other.x` are taken
  on unbounded integers. In the source they are `int` subtractions
  (src/geometry/point.cpp:15, src/game/game.cpp:114). The game's own NPCs stay
  on its 50 x 50 map, but the editor accepts any `int` coordinates from
  `add_npc` and from a loaded line. Two such NPCs more than 2^31 apart make
  the subtraction overflow, which is undefined behaviour in C++. The model
  gives the exact squared distance there instead.
- Points are values: `set_x` and `set_y` return the updated point. Every
  holder of a point in the source keeps its own copy.
- Getters (`get_name`, `get_position`, `is_alive`, `get_radius`) are field
  reads of the model's objects and have no members of their own.
- Threads, locks, atomics, sleeps, `start`, `stop`, `main_worker` and the
  `running` flag are not modelled. The battle worker is modelled as it runs
  once the game has stopped: it takes tasks until the queue is empty. The
  scan and the drain are modelled as separate sequential steps.
- Randomness: `initialize_npcs` and `random_position` are not modelled. The
  game's constructor takes the NPC list instead. `roll_dice` becomes the
  parameter `dice`, where `dice(k)` gives the two rolls of the k-th task taken.
- Movement (`movement_worker` lines 77-97, `NPC::move`, `get_move_distance`)
  is not modelled. It uses floating point and randomness, and `move` is not
  part of this model. Kill distances are per-kind constants (orc 10, druid
  10, squirrel 5), as test/test_game.cpp:14-24 states them.
- Files and output are not modelled:
  - Loading takes the file's lines, or `None` when the file cannot be opened
    (the `runtime_error` path). Saving returns the lines it writes.
  - The console and log messages of the editor and the game are left out.
  - The console and file observers are not modelled. They are represented
    by the observer ids 0 and 1, and a notify call is a `Delivery` record.
- A name with whitespace, or an empty one, does not survive save and load.
  The round-trip lemmas state this as their precondition.
- The visitor's double dispatch (`accept` and the three `visit` overloads)
  collapses into `PerformBattle`, as the overloads only forward to
  `perform_battle`.
- `print_all`, `print_map` and the interactive menu are not modelled.
- Null entries: the source's NPC lists can hold null pointers and skip them.
  The model's lists never hold null, so those checks have no counterpart.
  The observer list keeps the null case: `NullObserver`.
- Battle tasks name their NPCs by their index in the list, not
  by pointer. The game never removes an NPC, so an index always names the
  same object.
