# A verified model of the rogue-like's combat engine and dungeon generator

This project is a Dafny model of the core of a small C++ turn-based
rogue-like. It covers two halves of the game:

- **The combat engine.** It works on a line of eight tiles: the players
  stand on tiles 0-3 and the enemies on tiles 4-7.
  - `StatsComponent` holds seven attributes with timed modifiers, and
    health capped at `10 + 5 * Constitution`. It also computes the dodge,
    block and critical chances and resolves a block-or-damage roll.
  - `StatusEffectsComponent` keeps an ordered list of named effects:
    poison, stun, and stat buffs and debuffs. It runs their start, veto
    and end hooks.
  - `PositionComponent` and `Battlefield` keep the tile-to-entity table
    and the components that read it.
  - `Action` handles cooldowns, its property map, the usability gate and
    execution. Execution rolls for a miss, builds effects from the
    properties when none are listed, and runs the damage, healing,
    movement and stat-modifier effects.
  - `TurnManager` keeps a priority queue of turns keyed by Speed, with
    rounds refilled from the living roster.
  - `CombatSystem` is the state machine that places the teams, processes
    turns, checks the result, filters targets, rolls escapes and passes
    the enemy's turn.
- **The dungeon.**
  - `Room` objects link to each other both ways and hold visit and clear
    flags, an encounter and a property map.
  - `DungeonGenerator` builds one floor on a grid, in this order:
    1. A random walk with backtracking from the entrance.
    2. Fallbacks that recreate a room as the exit or the boss room.
    3. Random loops between neighbouring rooms.
    4. Conversion of shuffled normal rooms into treasure rooms.
    5. Encounter assignment by room type and distance from the entrance.
    6. A breadth-first search that links the nearest reached room to an
       unreached exit.
  - The encounters come as a base encounter whose first completion wins,
    a combat encounter that generates its enemies and maps the fight's
    verdict to its own result, and a treasure encounter that generates
    its items.

The model follows the code's own shape:

- **Classes.** Objects whose fields the code updates in place are Dafny
  classes with `modifies` frames: the components, the battlefield (its
  tile table is an `array`), actions, the turn manager, the combat system,
  rooms, the generator and the encounters. Each method's postcondition
  states its new state.
- **Loops.** The code's loops are `while` loops with invariants, proved
  against specification functions. Examples:
  - the back-to-front modifier update;
  - the side scans and the placing loops;
  - the escape averages;
  - the walk, the farthest-room scan and the loop pass;
  - the treasure conversion and the breadth-first search.
- **Pure rules.** Formulas and list rules are functions, and lemmas
  state what the code promises about them. Examples:
  - expiry after exactly `d` turns;
  - a shuffle is a permutation;
  - the first completion wins;
  - the heap yields turns in non-increasing Speed.

A few modelling choices run through the whole project:

- **Randomness.** Every random draw comes from an explicit stream
  `rng: nat -> nat` and a cursor that the methods advance and return, so
  each roll is an input.
  - `std::rand() % 100 + 1` and `std::rand() % 100` are written as the
    code writes them.
  - Each use of `std::mt19937` is a separate stream.
  - A `uniform_int_distribution` over `a..b` is a draw taken modulo the
    range's size, plus `a`.
  - A `std::shuffle` is one draw that selects one of the orders (see
    `DungeonRules.Shuffled`).
- **Integers.** Integers are unbounded. The generator's mixed
  `size_t`/`int` arithmetic is written out with explicit wrap-around
  (`DungeonRules.ToSize`, `DungeonRules.ToInt32`). The combat engine's
  `int` arithmetic is modelled without wrap-around, on the assumption
  that its values stay within 32 bits (see "Left out"). C++ division
  truncates toward zero and is modelled as `Common.TruncDiv`.
- **Ids and objects.** A room converted to an exit, boss or treasure
  room is a new object with the old id and cell and no links, exactly as
  in the generator.
  - The rooms that linked to the old object still link to it.
  - The breadth-first search marks ids, not objects, so it can mark the
    exit's id through the old object.
  - As a result, `ValidateDungeon` promises what the search does: every
    marked id has a path of links from the entrance, every expanded room
    has all its neighbours' ids marked, and the repair links the first
    nearest marked room to the exit. `Dungeon.SearchComplete` shows that
    the marked ids then cover every room a path of links reaches, as
    long as no two reachable rooms share an id. It does not promise that
    the exit object is reachable.
- **Priority queue ties.** The turn queue is a sequence. Its top is the
  first turn of maximal initiative. The C++ heap's order among equal
  initiatives is unspecified; the model fixes it as queue order (see
  "Left out").

## Model

| member | source | states |
|---|---|---|
| Common.TruncDiv | src/game/entities/components/StatsComponent.cpp:157-158 | C++ integer division truncates toward zero: the quotient agrees with Euclidean division for non-negative dividends and is mirrored for negative ones |
| Common.IntToString | src/game/dungeon/DungeonGenerator.cpp:420-421 | writing an int to a string stream yields at least one character, with a leading '-' exactly for negative values |
| Common.Percent | src/game/combat/CombatSystem.cpp:279 | `rand() % 100 + 1` is a roll in 1..100 |
| Common.Centile | src/game/entities/components/StatsComponent.cpp:139 | `rand() % 100` is a roll in 0..99 |
| Stats.StatName | src/game/entities/components/StatsComponent.cpp:167-178 | every attribute has a non-empty display name |
| Stats.StatNameInjective | src/game/entities/components/StatsComponent.cpp:167-178 | different attributes have different display names |
| Stats.SumDeltasAppend | src/game/entities/components/StatsComponent.cpp:57-63 | the modifier total of a concatenation is the sum of the totals |
| Stats.TickAppend | src/game/entities/components/StatsComponent.cpp:84-98 | the end-of-turn update works modifier by modifier, so it distributes over concatenation |
| Stats.TickShrinksIffExpiring | src/game/entities/components/StatsComponent.cpp:84-98 | an update never adds modifiers, and removes one exactly when some timed modifier has at most one turn left |
| Stats.TickKeepsPermanent | src/game/entities/components/StatsComponent.cpp:86-88 | a list of permanent modifiers (negative duration) is left untouched |
| Stats.TickNAppend | src/game/entities/components/StatsComponent.cpp:84-98 | `n` updates distribute over concatenation |
| Stats.TickNEmpty | src/game/entities/components/StatsComponent.cpp:82-99 | updating an empty list any number of times leaves it empty |
| Stats.TickNCountsDown | src/game/entities/components/StatsComponent.cpp:90-97 | a modifier of duration `d` is still present with `d - k` turns left after `k < d` updates |
| Stats.ModifierExpiresAfterDuration | src/game/entities/components/StatsComponent.cpp:68-105 | a modifier added with duration `d > 0` survives `d - 1` updates and is gone after `d`, leaving the rest of the list as if it had never been added |
| Stats.TickNSplit | src/game/entities/components/StatsComponent.cpp:78-105 | `k + 1` updates are one more update after `k` |
| Stats.ModsIn | src/game/entities/components/StatsComponent.cpp:58-59 | an attribute without a stored list has no modifiers |
| Stats.StatIndex | src/game/entities/components/StatsComponent.h:9-18 | every attribute has a position in the list of the seven attributes |
| Stats.AllStatsIndexed | src/game/entities/components/StatsComponent.h:9-18 | the seven attributes are listed once each |
| Stats.Rescaled | src/game/entities/components/StatsComponent.cpp:151-165 | health after a change of maximum never exceeds the new maximum, and is only capped when the maximum is unchanged |
| Stats.RescaledInRange | src/game/entities/components/StatsComponent.cpp:151-165 | health in `0..max` stays in `0..newMax` |
| Stats.RescaledKeepsFull | src/game/entities/components/StatsComponent.cpp:155-159 | full health stays full when the maximum changes |
| Stats.StatsComponent.constructor | src/game/entities/components/StatsComponent.cpp:8-17 | every attribute at zero, no modifiers, zero health |
| Stats.StatsComponent.BaseStat | src/game/entities/components/StatsComponent.cpp:40-46 | a stored base value, or zero when none is stored |
| Stats.StatsComponent.DerivedChancesCapped | src/game/entities/components/StatsComponent.cpp:119-132 | dodge, block and critical chance are capped at 40, 50 and 30, reach the cap from Dexterity 20, Defense 17 and Luck 15, equal 2×Dexterity, 3×Defense and 2×Luck below the cap, and are non-negative exactly when the attribute is |
| Stats.StatsComponent.GetCurrentStat | src/game/entities/components/StatsComponent.cpp:53-66 | the loop returns base value plus the sum of the attribute's modifier deltas |
| Stats.StatsComponent.RecalculateDerivedStats | src/game/entities/components/StatsComponent.cpp:151-165 | maximum is 10 + 5×Constitution; current health is rescaled in proportion and never above the maximum |
| Stats.StatsComponent.Initialize | src/game/entities/components/StatsComponent.cpp:19-33 | all seven base values set as given, maximum recomputed, health full |
| Stats.StatsComponent.SetBaseStat | src/game/entities/components/StatsComponent.cpp:48-51 | only that base value changes, the current value is the new base plus the modifiers, health is rescaled |
| Stats.StatsComponent.AddModifier | src/game/entities/components/StatsComponent.cpp:68-71 | the modifier is appended to that attribute's list only; its current value grows by the delta and no other attribute changes |
| Stats.StatsComponent.ClearModifiers | src/game/entities/components/StatsComponent.cpp:73-76 | no modifiers remain, every attribute is back at its base value, maximum is 10 + 5×base Constitution |
| Stats.StatsComponent.UpdateModifiers | src/game/entities/components/StatsComponent.cpp:78-105 | every list receives one update; health is recomputed exactly when some modifier ran out, otherwise untouched |
| Stats.StatsComponent.UpdateAllLists | src/game/entities/components/StatsComponent.cpp:82-99 | the loop over all lists updates each one and reports a change exactly when some modifier ran out |
| Stats.StatsComponent.UpdateList | src/game/entities/components/StatsComponent.cpp:84-98 | the back-to-front loop computes the specification update of the list and reports whether it removed anything |
| Stats.StatsComponent.UpdateStep | src/game/entities/components/StatsComponent.cpp:84-98 | one loop step keeps the unvisited prefix and extends the updated suffix by one modifier |
| Stats.StatsComponent.TakeDamage | src/game/entities/components/StatsComponent.cpp:134-149 | a roll below the block chance blocks (health unchanged, not dead); otherwise health drops by the damage, not below zero, and death is reported exactly when health is at most zero |
| Stats.StatsComponent.SetCurrentHealth | src/game/entities/components/StatsComponent.h:61 | health is set to the given value, never above the maximum |
| Stats.StatsComponent.Heal | src/game/entities/components/StatsComponent.h:62 | health grows by the amount, never above the maximum; healing keeps health in range |
| Positions.Clamp | src/game/entities/components/PositionComponent.cpp:8-12 | the result lies in `lo..hi`; a value inside is kept, one below becomes `lo`, one above becomes `hi` |
| Positions.PositionComponent.constructor | src/game/entities/components/PositionComponent.cpp:14-16 | tile 0 of an eight-tile battlefield |
| Positions.PositionComponent.DistanceTo | src/game/entities/components/PositionComponent.cpp:58-61 | distance is non-negative and zero exactly on the same tile |
| Positions.PositionComponent.DirectionTo | src/game/entities/components/PositionComponent.cpp:68-75 | 1 exactly when the other is higher, -1 exactly when lower, 0 exactly on the same tile |
| Positions.PositionComponent.DistanceAndDirection | src/game/entities/components/PositionComponent.cpp:58-75 | distance is symmetric, direction antisymmetric, and stepping the distance in the direction reaches the other tile |
| Positions.PositionComponent.SetPosition | src/game/entities/components/PositionComponent.cpp:22-32 | a valid tile is stored as given, any other is clamped into `0..maxPosition` |
| Positions.PositionComponent.MoveForward | src/game/entities/components/PositionComponent.cpp:34-42 | moves by `steps` exactly when the target tile is on the battlefield and reports it; otherwise stays; keeps the position valid |
| Positions.PositionComponent.MoveBackward | src/game/entities/components/PositionComponent.cpp:44-47 | the same as moving forward by `-steps` |
| Positions.PositionComponent.SetBattlefieldSize | src/game/entities/components/PositionComponent.cpp:77-94 | the battlefield gets `max(size, 2)` tiles and the position is pulled back to the last tile when beyond it |
| Entities.Entity.constructor | src/game/entities/Entity.h:14 | an entity with the given name and components attached |
| StatusEffects.DecreaseDuration | src/game/entities/components/StatusEffectsComponent.h:64 | a positive duration drops by one, a non-positive one is kept; nothing else changes |
| StatusEffects.ExpiresAfterDuration | src/game/entities/components/StatusEffectsComponent.h:52-64 | after `k` countdowns an effect of duration `d >= 0` has `max(0, d - k)` turns left and is expired exactly when `k >= d` |
| StatusEffects.PoisonEffect | src/game/entities/components/StatusEffectsComponent.cpp:146-150 | a poison effect named "Poison" with the given duration and damage per turn |
| StatusEffects.StunEffect | src/game/entities/components/StatusEffectsComponent.cpp:179-182 | a stun effect named "Stun" with the given duration |
| StatusEffects.StatBuffEffect | src/game/entities/components/StatusEffectsComponent.cpp:202-226 | tagged Buff exactly for positive values and Debuff otherwise; not yet applied; named from the value and the stat |
| StatusEffects.BuffAndDebuffNamesDiffer | src/game/entities/components/StatusEffectsComponent.cpp:223 | a buff and a debuff on the same stat never share a name |
| StatusEffects.CreateStatusEffect | src/game/entities/components/StatusEffectsComponent.cpp:250-278 | poison, stun, Strength buff of `abs(magnitude)` and Strength debuff of `-abs(magnitude)`; every other kind yields nothing |
| StatusEffects.WithoutSound | src/game/entities/components/StatusEffectsComponent.cpp:44-54 | removing by name keeps exactly the effects with another name, never grows the list and keeps names unique |
| StatusEffects.UnexpiredMembers | src/game/entities/components/StatusEffectsComponent.cpp:131-142 | the expiry filter keeps exactly the effects with turns left |
| StatusEffects.UnexpiredKeepsUniqueNames | src/game/entities/components/StatusEffectsComponent.cpp:131-142 | the expiry filter keeps names unique |
| StatusEffects.UnexpiredOfLive | src/game/entities/components/StatusEffectsComponent.cpp:131-142 | filtering a list with nothing expired changes nothing |
| StatusEffects.UniqueAppend | src/game/entities/components/StatusEffectsComponent.cpp:37-41 | appending an effect with a new name keeps names unique |
| StatusEffects.Started | src/game/entities/components/StatusEffectsComponent.cpp:228-239 | the start hook only marks a stat change applied, and only when the owner has stats |
| StatusEffects.StartedIdempotent | src/game/entities/components/StatusEffectsComponent.cpp:232-238 | a second start hook adds no second modifier |
| StatusEffects.ModifiersForAppend | src/game/entities/components/StatusEffectsComponent.cpp:85-87 | the modifiers added for one stat by two runs of hooks are those of the first run followed by the second |
| StatusEffects.PoisonTurnStart | src/game/entities/components/StatusEffectsComponent.cpp:152-170 | with no owner or stats nothing happens; otherwise `min(health - 1, damage)` is dealt when positive, subject to the block roll, so poison never kills and changes nothing else |
| StatusEffects.StatChangeTurnStart | src/game/entities/components/StatusEffectsComponent.cpp:228-239 | the first time the owner has stats, adds one modifier of the value for the remaining duration and marks the effect applied |
| StatusEffects.RunStartHook | src/game/entities/components/StatusEffectsComponent.cpp:152-198 | dispatches on the effect kind; the effect becomes started, the owner's modifier lists grow by what the hook adds, and non-stat hooks never raise health nor kill |
| StatusEffects.RunStartHooks | src/game/entities/components/StatusEffectsComponent.cpp:85-87 | every effect's start hook in list order, with the modifiers they add appended in that order |
| StatusEffects.StatusEffectsComponent.constructor | src/game/entities/components/StatusEffectsComponent.cpp:20-22 | no owner and no effects |
| StatusEffects.StatusEffectsComponent.OnAttach | src/game/entities/components/StatusEffectsComponent.cpp:127-129 | records the owner |
| StatusEffects.StatusEffectsComponent.FindByName | src/game/entities/components/StatusEffectsComponent.cpp:28-31 | the index of the first effect with that name, or -1 exactly when there is none |
| StatusEffects.StatusEffectsComponent.AddEffect | src/game/entities/components/StatusEffectsComponent.cpp:24-42 | a missing effect changes nothing; a same-named effect is replaced in place; a new name is appended; names stay unique |
| StatusEffects.StatusEffectsComponent.RemoveEffect | src/game/entities/components/StatusEffectsComponent.cpp:44-54 | removes every effect with that name and keeps the others in order |
| StatusEffects.StatusEffectsComponent.ClearEffects | src/game/entities/components/StatusEffectsComponent.cpp:56-59 | no effects remain |
| StatusEffects.StatusEffectsComponent.RemoveExpiredEffects | src/game/entities/components/StatusEffectsComponent.cpp:131-142 | the list becomes its unexpired effects in order, so none is expired |
| StatusEffects.StatusEffectsComponent.ProcessTurnEnd | src/game/entities/components/StatusEffectsComponent.cpp:93-105 | every effect counts down once, then expired ones are dropped |
| StatusEffects.StatusEffectsComponent.ProcessTurnStart | src/game/entities/components/StatusEffectsComponent.cpp:79-91 | every start hook runs in order, then expired ones are dropped; the owner gains exactly the modifiers the hooks add, and with no stat change among them health never rises nor reaches zero from one |
| StatusEffects.StatusEffectsComponent.ProcessNewTurn | src/game/entities/components/StatusEffectsComponent.cpp:107-120 | the owner may act exactly when no effect vetoes, i.e. when there is no stun |
| StatusEffects.EndedAllKeepsNames | src/game/entities/components/StatusEffectsComponent.cpp:98-101 | the end hooks count each effect down in place and keep names unique |
| StatusEffects.StartedAllKeepsNames | src/game/entities/components/StatusEffectsComponent.cpp:84-87 | the start hooks start each effect in place and keep names unique |
| StatusEffects.StunVetoesUntilExpired | src/game/entities/components/StatusEffectsComponent.cpp:179-198 | a stun of `d > 0` turns vetoes its owner's turn and expires after exactly `d` countdowns |
| Battlefields.GetDistance | src/game/combat/Battlefield.cpp:199-205 | -1 exactly when either tile is off the battlefield; otherwise a distance below eight that is zero exactly on the same tile |
| Battlefields.GetDistanceSymmetric | src/game/combat/Battlefield.cpp:199-205 | tile distance is symmetric |
| Battlefields.IndexOf | src/game/combat/Battlefield.cpp:215-223 | the first index of the entity, or -1 exactly when it is not listed |
| Battlefields.Battlefield.CoherentIsInjective | src/game/combat/Battlefield.cpp:14-43 | on a battlefield whose slot table agrees with the components, no entity is listed twice and no two share a component |
| Battlefields.Battlefield.constructor | src/game/combat/Battlefield.cpp:7-12 | eight free tiles and no entities |
| Battlefields.Battlefield.GetEntityAtPosition | src/game/combat/Battlefield.cpp:84-95 | an entity exactly for an occupied valid tile, namely the listed entity its slot names |
| Battlefields.Battlefield.GetEntityIndex | src/game/combat/Battlefield.cpp:215-223 | the scan returns the first index of the entity, or -1 |
| Battlefields.Battlefield.CanMoveTo | src/game/combat/Battlefield.cpp:109-135 | true exactly when the entity is placed, the tile is valid and free, and the entity has a position component |
| Battlefields.Battlefield.NoMoveInPlace | src/game/combat/Battlefield.cpp:109-135 | on a coherent battlefield an entity can never move onto its own tile |
| Battlefields.Battlefield.PlaceEntity | src/game/combat/Battlefield.cpp:14-43 | succeeds exactly on a valid free tile; then the entity is appended and the tile's slot holds its index, a missing component is created on that tile and an existing one is moved there; on failure nothing changes; coherence is kept for a new entity |
| Battlefields.Battlefield.MoveEntity | src/game/combat/Battlefield.cpp:45-82 | succeeds exactly when the move is allowed; then the old tile is freed, the new one holds the entity's index and its component reads the new tile; on failure nothing changes |
| Battlefields.Battlefield.Relocate | src/game/combat/Battlefield.cpp:71-81 | the update half of a move: old slot freed, new slot bound, component moved, coherence kept |
| Battlefields.Battlefield.Occupants | src/game/combat/Battlefield.cpp:141-165 | at most one occupant per tile of the range |
| Battlefields.Battlefield.OccupantsExact | src/game/combat/Battlefield.cpp:141-165 | the occupants of a range are exactly the entities found on its tiles |
| Battlefields.Battlefield.CollectSide | src/game/combat/Battlefield.cpp:144-151 | the loop collects the occupants of the range in tile order |
| Battlefields.Battlefield.GetPlayerSideEntities | src/game/combat/Battlefield.cpp:141-152 | the occupants of tiles 0-3 in tile order |
| Battlefields.Battlefield.GetEnemySideEntities | src/game/combat/Battlefield.cpp:154-165 | the occupants of tiles 4-7 in tile order |
| Battlefields.Battlefield.IsOnPlayerSide | src/game/combat/Battlefield.cpp:167-181 | true exactly when the entity is placed and its component reads tile 0-3 |
| Battlefields.Battlefield.IsOnEnemySide | src/game/combat/Battlefield.cpp:183-197 | true exactly when the entity is placed and its component reads tile 4-7 |
| Battlefields.Battlefield.SideAgreesWithSlots | src/game/combat/Battlefield.cpp:141-197 | on a coherent battlefield the side read from a component agrees with the side lists built from the slot table |
| Battlefields.Battlefield.Clear | src/game/combat/Battlefield.cpp:207-213 | no entities and eight free tiles |
| Actions.Pick | src/game/combat/Action.cpp:472-474 | an effect acts on the user or on the target, nobody else |
| Actions.SubjectOf | src/game/combat/Action.cpp:468-557 | an effect acts on the user or the target, and damage always on the target |
| Actions.ApplicableEffectRuns | src/game/combat/Action.cpp:18-207 | an effect whose applicability check holds also passes its execution guard; for stat modifiers and movement the two coincide |
| Actions.FinalDamageShape | src/game/combat/Action.cpp:33-49 | a critical roll within the chance doubles the ordinary damage (base plus half the attacking stat, truncated); with non-negative stat and base the damage is at least the base |
| Actions.ExecuteDamage | src/game/combat/Action.cpp:18-62 | runs exactly when both parties have stats; then draws one critical roll and one block roll and the target's health drops by the computed damage, not below zero, unless blocked; otherwise nothing changes |
| Actions.ExecuteHealing | src/game/combat/Action.cpp:87-97 | runs exactly when the subject has stats, and heals it up to the maximum |
| Actions.ExecuteMovement | src/game/combat/Action.cpp:119-156 | runs exactly when the battlefield lets the subject move `change` tiles; then the slot table and component are updated as by a battlefield move; otherwise nothing changes |
| Actions.ExecuteStatModifier | src/game/combat/Action.cpp:177-203 | runs exactly when the subject has stats; then one timed modifier is appended to that stat and health recomputed |
| Actions.PropertyRoundTrip | src/game/combat/Action.h:135-143 | a written property reads back as written, other keys are unaffected, and an absent key reads as 0 |
| Actions.StatFromKey | src/game/combat/Action.cpp:431-442 | a recognised stat name spells that stat |
| Actions.ParseModKey | src/game/combat/Action.cpp:430-442 | a key names a stat only when it is `mod_` followed by that stat's spelling |
| Actions.ModKeyRoundTrip | src/game/combat/Action.cpp:430-442 | every stat's `mod_` key parses back to that stat |
| Actions.ModDuration | src/game/combat/Action.cpp:445-446 | the `duration` property when positive, otherwise 3; always at least 1 |
| Actions.ModEffectsSound | src/game/combat/Action.cpp:429-450 | every synthesised stat modifier comes from a `mod_<STAT>` key and carries its value, the modifier duration and, in a compound action, the user as subject for positive values |
| Actions.ModEffectsComplete | src/game/combat/Action.cpp:429-450 | every `mod_<STAT>` key yields a modifier of that stat with the key's value |
| Actions.ModEffectsDistinctStats | src/game/combat/Action.cpp:429-450 | over distinct keys no stat is modified twice |
| Actions.SynthesisedFits | src/game/combat/Action.cpp:395-569 | synthesis yields only effects of the action's kind: none for a special action, at most one for attack, heal and movement, each stat modifier traced to its key |
| Actions.CompoundFits | src/game/combat/Action.cpp:454-562 | a compound action's effects are damage first (if any), then self-heal, self-move and stat modifiers |
| Actions.LeadingConcat | src/game/combat/Action.cpp:454-562 | appending non-damage effects keeps damage in front |
| Actions.CooldownAfterClosedForm | src/game/combat/Action.h:126 | `n` decrements take a positive counter to `max(0, c - n)` and leave a non-positive one alone |
| Actions.CooldownLastsExactly | src/game/combat/Action.h:125-127 | a cooldown of `c >= 0` turns is still running after `n` decrements exactly when `n < c` |
| Actions.Action.constructor | src/game/combat/Action.cpp:211-219 | the given id, name and kind; accuracy 100, range 1, no cooldown, no properties, effects or callback |
| Actions.Action.SetAccuracy | src/game/combat/Action.h:116 | stores the accuracy |
| Actions.Action.SetRange | src/game/combat/Action.h:117 | stores the range |
| Actions.Action.SetCooldown | src/game/combat/Action.h:118 | stores the cooldown |
| Actions.Action.SetEffectCallback | src/game/combat/Action.h:130-132 | installs or removes the callback |
| Actions.Action.StartCooldown | src/game/combat/Action.h:125 | the counter restarts at the cooldown, so the action is on cooldown exactly when the cooldown is positive |
| Actions.Action.DecreaseCooldown | src/game/combat/Action.h:126 | a running counter drops by one; a stopped one is left alone and never goes negative |
| Actions.Action.GetProperty | src/game/combat/Action.h:140-143 | an absent key reads as 0 |
| Actions.Action.SetProperty | src/game/combat/Action.h:135-137 | the key reads back as the value and no other key changes |
| Actions.Action.GetDamage | src/game/combat/Action.cpp:387-389 | the `damage` property |
| Actions.Action.SetDamage | src/game/combat/Action.cpp:391-393 | writes the `damage` property, which then reads back as the value |
| Actions.Action.AddEffect | src/game/combat/Action.h:146-148 | appends the effect after those listed |
| Actions.Action.CreateEffectsFromProperties | src/game/combat/Action.cpp:395-569 | the list becomes exactly the effects the kind and properties call for |
| Actions.Action.AppendModEffects | src/game/combat/Action.cpp:429-450 | the loop over the keys appends one stat modifier per `mod_<STAT>` key in key order |
| Actions.Action.UsableWithinRange | src/game/combat/Action.cpp:326-346 | a usable action with a battlefield and positive range has its target within range and is off cooldown |
| Actions.Action.CanUse | src/game/combat/Action.cpp:306-385 | true exactly when off cooldown, both parties have stats, the range holds, the targeting rules hold and, when effects are listed, one is applicable |
| Actions.Action.Execute | src/game/combat/Action.cpp:226-304 | an unusable action fails and changes nothing; a miss draws one roll and starts the cooldown; on a hit the effects are synthesised if none are listed, the parties and the battlefield end as the fold `RunAll` over the effects from the state before the call, the action fires exactly when the callback is installed or some effect ran, and the cooldown starts exactly when it fired; a usable action with listed effects always fires on a hit; nothing fires without a hit |
| Actions.Action.Resolve | src/game/combat/Action.cpp:267-296 | the hit half: effects synthesised if absent; the parties and the battlefield end as the fold `RunAll` over the effects; firing means the callback or some effect ran; cooldown started exactly when something fired |
| Actions.Action.Apply | src/game/combat/Action.cpp:277-296 | the effect loop, the callback and the cooldown: the state ends as the fold over the listed effects, a callback always fires, the cooldown restarts exactly on firing, and when nothing fired nothing changed and no listed effect was applicable at the start |
| Actions.Action.RunEffects | src/game/combat/Action.cpp:277-285 | the parties, the battlefield and the draws end as the fold `RunAll` over the listed effects, each effect running exactly when it is applicable where the earlier ones left off; reports whether any ran; when none ran nothing changed and no listed effect was applicable at the start |
| Actions.RunNext | src/game/combat/Action.cpp:279-285 | one turn of the effect loop extends the fold by one effect and keeps the "some effect ran" flag in step with it |
| Actions.RunIfApplicable | src/game/combat/Action.cpp:280-284 | one step of the loop: the effect runs exactly when it is applicable, and then the state is what `Fire` computes for it; otherwise nothing changes |
| Actions.ExecuteEffect | src/game/combat/Action.cpp:18-207 | reports success exactly when the effect's guard held; then the parties and the battlefield are what `Fire` computes for that kind of effect; on failure nothing changed and no roll was drawn |
| Actions.FireDamage | src/game/combat/Action.cpp:18-62 | a damage effect that runs leaves the target's stats as `Struck` computes them (critical and block rolls, health down by the damage, never below zero) and draws two rolls |
| Actions.FireHealing | src/game/combat/Action.cpp:87-97 | a healing effect that runs leaves its subject's health as `Healed` computes it: up by the amount, capped at the maximum |
| Actions.FireMovement | src/game/combat/Action.cpp:119-156 | a movement effect that runs leaves the slot table and the subject's component as `Moved` computes them: old tile freed, new tile bound, component moved |
| Actions.FireModifier | src/game/combat/Action.cpp:177-203 | a stat modifier that runs leaves its subject's stats as `Modified` computes them: the modifier appended, the maximum rederived, health rescaled |
| Actions.MovementFired | src/game/combat/Battlefield.cpp:45-82 | the slot table and component a battlefield move leaves are those `Moved` computes |
| Actions.ModifierFired | src/game/entities/components/StatsComponent.cpp:68-71 | the stats an added modifier and the recomputed health leave are those `Modified` computes |
| Actions.StatsSnap | src/game/combat/Action.cpp:18-207 | when an effect changes one stats component only, the scene read afterwards is the old scene with that component's new state |
| Actions.StatInAgrees | src/game/entities/components/StatsComponent.cpp:53-132 | the scene's value formulas (current stat, critical and block chance, maximum health) are the component's |
| Actions.SnapApplicable | src/game/combat/Action.cpp:18-207 | an effect's applicability read off the scene is its `CanApply` on the objects |
| Actions.SnapApplicableAll | src/game/combat/Action.cpp:279-281 | the same for every effect of a list |
| Actions.RunAllStep | src/game/combat/Action.cpp:279-285 | the fold over one more effect runs that effect exactly when it is applicable where the prefix left off |
| Actions.RunAllPrefix | src/game/combat/Action.cpp:279-285 | the flags of the first `j` effects do not depend on the effects after them |
| Actions.RunAllFiredExactly | src/game/combat/Action.cpp:279-285 | effect `j` runs exactly when it is applicable in the state the effects before it left |
| Actions.RunAllQuiet | src/game/combat/Action.cpp:279-285 | when no effect runs, the state and the draws are untouched |
| Actions.ApplicableFires | src/game/combat/Action.cpp:279-285 | an effect applicable at the start guarantees that some effect runs |
| Actions.QuietMeansInapplicable | src/game/combat/Action.cpp:279-285 | if no effect runs, none was applicable at the start |
| Actions.RunAllKeepsCast | src/game/combat/Action.cpp:279-285 | the effects never change who the parties are, whether there is a battlefield, its roster or its size, and never give back draws |
| Turns.TurnLessIsStrictWeakOrder | src/game/combat/TurnManager.h:26-28 | the queue's comparator is irreflexive, transitive and asymmetric, with turns of equal initiative incomparable |
| Turns.TopIndex | src/game/combat/TurnManager.h:68-69 | the heap's top is a turn of maximal initiative, the first such in the model's order |
| Turns.Popped | src/game/combat/TurnManager.cpp:48-49 | a pop shortens the queue by one |
| Turns.PopRemovesTop | src/game/combat/TurnManager.cpp:48-49 | popping removes exactly the top turn, which no queued turn outranks |
| Turns.DrainPermutes | src/game/combat/TurnManager.cpp:169-172 | successive pops yield every queued turn exactly once |
| Turns.TopOutranksDrain | src/game/combat/TurnManager.cpp:169-172 | nothing popped after the top outranks it |
| Turns.DrainSorted | src/game/combat/TurnManager.cpp:169-172 | successive pops yield turns in non-increasing initiative |
| Turns.EntitiesOf | src/game/combat/TurnManager.cpp:170 | the entities of the turns, position by position |
| Turns.TurnsForSound | src/game/combat/TurnManager.cpp:30-44 | exactly the present, living entities with stats are queued, each with its current Speed |
| Turns.RemoveFirstCount | src/game/combat/TurnManager.cpp:91-94 | find-then-erase takes out exactly one copy of a listed entity and leaves the list alone otherwise |
| Turns.TurnManager.constructor | src/game/combat/TurnManager.cpp:10-13 | no turns, nobody acting, round 0 |
| Turns.TurnManager.Initialize | src/game/combat/TurnManager.cpp:15-55 | round 1; the roster is the eligible entities in order; the top turn's entity becomes current and the rest stay queued, or nobody acts when none is eligible |
| Turns.TurnManager.GetNextEntity | src/game/combat/TurnManager.cpp:57-74 | with nobody acting and turns queued, the top turn's entity becomes current, and a pop that empties the queue starts the next round; otherwise nothing changes; returns the current entity |
| Turns.TurnManager.PrepareNextRound | src/game/combat/TurnManager.cpp:187-198 | the round advances and every living roster entity is queued again with its current Speed |
| Turns.TurnManager.EndTurn | src/game/combat/TurnManager.cpp:76-103 | with nobody acting nothing changes; otherwise a dead actor leaves the roster, the actor is cleared and the next turn is fetched as by `GetNextEntity` |
| Turns.TurnManager.IsCombatOver | src/game/combat/TurnManager.cpp:105-134 | true exactly when a battlefield is given and one side's tiles hold no living entity with stats |
| Turns.TurnManager.Reset | src/game/combat/TurnManager.cpp:136-147 | no turns, no roster, nobody acting, round 0 |
| Turns.TurnManager.GetTurnOrder | src/game/combat/TurnManager.cpp:157-175 | the acting entity first, then the queued entities in the order successive pops yield them |
| Turns.PopExtends | src/game/combat/TurnManager.cpp:169-172 | one more pop moves the top from the remaining drain onto the reported prefix |
| Turns.EntitiesOfSnoc | src/game/combat/TurnManager.cpp:170 | the entities of one more turn are those before plus its entity |
| Turns.TurnOrderSorted | src/game/combat/TurnManager.cpp:157-175 | the reported queue lists every queued turn once, by non-increasing initiative |
| Turns.InitialOrder | src/game/combat/TurnManager.cpp:46-54 | right after initialisation the current entity has the highest Speed and the current entity followed by the queue is the full pop order |
| Turns.SideDefeatedByComponents | src/game/combat/TurnManager.cpp:111-133 | on a coherent battlefield a side is defeated exactly when no entity whose component reads that side is living with stats |
| Combat.Line | src/game/combat/CombatSystem.cpp:33-45 | the side's line has one entry per considered member (at most four): member `j` when it carries a position component, else nobody |
| Combat.Present | src/game/combat/CombatSystem.cpp:33-45 | the entities a line places are never more than its entries |
| Combat.SeatOne | src/game/combat/CombatSystem.cpp:33-38 | placing a present member extends the seated prefix by its tile |
| Combat.SeatNone | src/game/combat/CombatSystem.cpp:33-38 | skipping a member without a position component extends the seated prefix without touching the table |
| Combat.PresentAppend | src/game/combat/CombatSystem.cpp:33-45 | the entities placed for two lines are those of the first followed by those of the second |
| Combat.PresentIndex | src/game/combat/Battlefield.cpp:39-40 | a placed member's index in the placement list is the number of members placed before it |
| Combat.SeatMember | src/game/combat/CombatSystem.cpp:34-37 | one turn of the placing loop keeps the loop invariant: member `i` is seated when fielded, its position component then reads tile `offset + i` clamped to the component's own bounds (the `SetPosition` of Battlefield.cpp:34-36), and no other tile, list entry or component moves |
| Combat.Field | src/game/combat/CombatSystem.cpp:33-45 | the placing loop appends the fielded members among the first four to the battlefield, member `j` on tile `offset + j`, every placement succeeding on the free side; member `j`'s component reads `offset + j` clamped to its bounds unless a later member of the line shares that component (`Combat.Aimed`), and components outside the line keep their positions |
| Combat.SeatAll | src/game/combat/CombatSystem.cpp:33-38 | the loop of `Field` runs from the invariant at member 0 to the invariant at the end of the line, and a component no seated member carries keeps its position |
| Combat.PlacingBegins | src/game/combat/CombatSystem.cpp:33 | before the placing loop its invariant holds |
| Combat.PlacingEnds | src/game/combat/CombatSystem.cpp:33-45 | after the placing loop the whole line is seated and its components read their tiles as `Combat.Aimed` says |
| Combat.PlacedAim | src/game/combat/Battlefield.cpp:34-36 | the clamped tile each seated member's component was given, read on the line's own components: it holds for every component no later member shares, and a team component outside the line was carried by no seated member |
| Combat.DeployedTiles | src/game/combat/CombatSystem.cpp:33-45 | seating both lines on a cleared battlefield leaves member `j` of the players on tile `j` and of the enemies on tile `4 + j` |
| Combat.FirstSideTile | src/game/combat/CombatSystem.cpp:33-38 | tile `j` holds the players' member `j` |
| Combat.SecondSideTile | src/game/combat/CombatSystem.cpp:40-45 | tile `4 + j` holds the enemies' member `j` |
| Combat.TileAfter | src/game/combat/CombatSystem.cpp:33-45 | each tile of a fully seated line holds what seating prescribes |
| Combat.SideVerdict | src/game/combat/TurnManager.cpp:114-131 | when a team of at most four, all fielded, stands on its side tile by tile, the side is all down exactly when the team is |
| Combat.VerdictsAgree | src/game/combat/CombatSystem.cpp:120-149 | for such teams the turn manager's verdict (one side's tiles hold nobody alive) coincides with the combat system's result being decided |
| Combat.ChanceFor | src/game/combat/CombatSystem.cpp:272-276 | the escape chance stays within 10..90 |
| Combat.ChanceMonotone | src/game/combat/CombatSystem.cpp:272-276 | faster players never lower the chance, faster enemies never raise it, and equal speeds give 50 |
| Combat.SumWithin | src/game/combat/CombatSystem.cpp:248-266 | Speeds within `lo..hi` sum to between `lo` and `hi` times their number |
| Combat.AverageWithinSpeeds | src/game/combat/CombatSystem.cpp:269-270 | the truncated average Speed of a team lies between its slowest and fastest living member's Speed |
| Combat.CandidatesExact | src/game/combat/CombatSystem.cpp:224-235 | the offered targets are exactly the pool's living members with stats the action is usable on |
| Combat.Deploy | src/game/combat/CombatSystem.cpp:33-45 | both placing loops on a cleared battlefield: players then enemies in the placement list, each member on its side's tile, every other tile free; player `j`'s component reads tile `j` and enemy `j`'s reads tile `4 + j`, each clamped to its bounds, unless a later member of the same line or (for a player) an enemy of the line shares that component |
| Combat.FieldEnemies | src/game/combat/CombatSystem.cpp:40-45 | the enemies' placing loop after the players': the battlefield ends as `Combat.Deployed` says, the enemies' components read their tiles, and the players' components keep the tiles they were given unless an enemy of the line carries the same component |
| Combat.DeployedOn | src/game/combat/Battlefield.cpp:84-95 | the seated slot table, read through the battlefield's own lookup, gives each member its tile |
| Combat.CombatSystem.constructor | src/game/combat/CombatSystem.cpp:12-17 | an empty battlefield and turn manager, no teams, combat not started |
| Combat.CombatSystem.AlliesEquivalence | src/game/combat/CombatSystem.cpp:418-425 | being allies is reflexive, symmetric and transitive |
| Combat.CombatSystem.Reset | src/game/combat/CombatSystem.cpp:151-164 | battlefield cleared, turn manager reset, teams dropped, state back to not started |
| Combat.CombatSystem.StartCombat | src/game/combat/CombatSystem.cpp:23-64 | stores the teams, places the first four fielded players on tiles 0-3 and enemies on 4-7 by member index, sets each placed member's position component to its tile clamped to the component's bounds (unless another placed member shares it, as `Combat.Aimed` says), queues every living member with stats for round 1 and waits for an action |
| Combat.CombatSystem.Store | src/game/combat/CombatSystem.cpp:28-54 | after the reset: the teams are stored, and then everything `Setup` states holds |
| Combat.CombatSystem.Setup | src/game/combat/CombatSystem.cpp:29-54 | after the reset: both sides placed, the placed members' components on their clamped tiles, combatants queued, waiting for an action |
| Combat.CombatSystem.Begin | src/game/combat/CombatSystem.cpp:47-54 | the combatants are queued for round 1 and the state waits for an action; the battlefield, its bounds and the components' positions stay as the placing left them |
| Combat.CombatSystem.CheckCombatResult | src/game/combat/CombatSystem.cpp:120-149 | defeat when no player is alive with stats, else victory when no enemy is, else undecided |
| Combat.CombatSystem.GetValidTargets | src/game/combat/CombatSystem.cpp:198-238 | none without an action or actor; the actor alone for a self-targeted action; otherwise the usable living candidates among the enemies (offensive) or the players |
| Combat.CombatSystem.TryEscape | src/game/combat/CombatSystem.cpp:240-310 | one roll; escape exactly when it is within the chance, which ends the fight; otherwise the actor's turn ends and the state waits on whoever is next |
| Combat.CombatSystem.Tally | src/game/combat/CombatSystem.cpp:246-266 | one averaging loop sums the current Speed of the team's living members with stats and counts them; their truncated quotient is the team's average Speed |
| Combat.CombatSystem.RollEscape | src/game/combat/CombatSystem.cpp:244-280 | the two averaging loops and one roll of 1-100 decide escape against the chance from the truncated average Speeds |
| Combat.CombatSystem.PassTurn | src/game/combat/CombatSystem.cpp:298-306 | the turn ends and the state waits on the player or the enemy next on turn |
| Combat.CombatSystem.ProcessTurn | src/game/combat/CombatSystem.cpp:66-118 | no actor or no action: nothing happens; a failed action keeps the turn and waits for another choice, changing nothing else; success implies a usable hit, ends the turn, and then ends the fight if decided or waits on whoever is next; on a usable hit the actor, the target and the battlefield end as the fold `RunAll` over the (synthesised if absent) effects, and success means the callback or some effect ran |
| Combat.CombatSystem.Attempt | src/game/combat/CombatSystem.cpp:81-117 | the body of a turn once actor and action are known, with the same outcomes, including the fold over the effects on a usable hit |
| Combat.CombatSystem.Act | src/game/combat/CombatSystem.cpp:82-83 | using the action changes only the action, the parties' components and the slot table; success implies a usable hit; on a usable hit the effect list is synthesised if absent, the parties and the battlefield end as the fold `RunAll` over it, and success means the callback or some effect ran; the state becomes executing |
| Combat.CombatSystem.Conclude | src/game/combat/CombatSystem.cpp:85-115 | success ends the turn, then ends the fight if decided or waits on whoever is next; failure waits for another choice and keeps the turn; neither touches the parties' components or the slot table |
| Combat.CombatSystem.FinishTurn | src/game/combat/CombatSystem.cpp:97-111 | the turn ends and the fight ends when decided, else the state waits on whoever is next |
| Combat.CombatSystem.ProcessEnemyTurn | src/game/combat/CombatSystem.cpp:316-348 | refused exactly when nobody acts or a player does; an enemy's choice is always empty, so the turn passes and the state waits on whoever is next |
| Encounters.CompletingSettles | src/game/dungeon/encounters/Encounter.cpp:33-41 | after any completion call the encounter is completed, a second call changes nothing, and on an open encounter the given result is recorded |
| Encounters.CompletedStays | src/game/dungeon/encounters/Encounter.cpp:33-41 | a completed encounter ignores every further series of completion calls |
| Encounters.FirstCompletionWins | src/game/dungeon/encounters/Encounter.cpp:33-41 | a new encounter completed several times keeps the first result |
| Encounters.Encounter.constructor | src/game/dungeon/encounters/Encounter.cpp:6-31 | a new encounter has its kind and name, the kind's default description, and is open with no result |
| Encounters.Encounter.SetDescription | src/game/dungeon/encounters/Encounter.h:47 | the description becomes the given text |
| Encounters.Encounter.Complete | src/game/dungeon/encounters/Encounter.cpp:33-41 | the completion record moves as the completion rule says: an open encounter records the result, a completed one is left as it is |
| Encounters.ResultMappingInjective | src/game/dungeon/encounters/CombatEncounter.cpp:53-75 | the mapping from fight verdicts to encounter results is one-to-one, only "no verdict" leaves the encounter pending, and a fight never yields the treasure result |
| Encounters.UpdateNeverSkips | src/game/dungeon/encounters/CombatEncounter.cpp:48-78 | the verdict an update reads from the teams never maps to a skipped encounter |
| Encounters.EnemyHealthNearDesired | src/game/dungeon/encounters/CombatEncounter.cpp:156-160 | the Constitution adjustment brings maximum health to within five of the desired health, never above it |
| Encounters.EnemyHealthMonotone | src/game/dungeon/encounters/CombatEncounter.cpp:183-187 | a higher level never gives an enemy kind a lower adjusted Constitution |
| Encounters.GeneratedSnoc | src/game/dungeon/encounters/CombatEncounter.cpp:102-114 | appending the enemy generated from the next two draws keeps a generated team generated |
| Encounters.NewEnemyStats | src/game/dungeon/encounters/CombatEncounter.cpp:143-160 | a fresh stats component with the kind's attributes, Constitution adjusted for the desired health, no modifiers and full health |
| Encounters.CreateRandomEnemy | src/game/dungeon/encounters/CombatEncounter.cpp:120-254 | a fresh enemy of the kind chosen by the first draw, named by its kind and a tag from 1 to 1000 taken from the second draw, with its starting stats and a position component on tile 7; two draws are consumed |
| Encounters.CombatEncounter.constructor | src/game/dungeon/encounters/CombatEncounter.cpp:11-29 | a new combat encounter is open, has the difficulty-specific description, a difficulty of at least 1, a combat system not yet started and empty teams |
| Encounters.CombatEncounter.SetPlayerTeam | src/game/dungeon/encounters/CombatEncounter.cpp:92-94 | the player team becomes the given team |
| Encounters.CombatEncounter.AddEnemy | src/game/dungeon/encounters/CombatEncounter.cpp:96-100 | a non-null enemy is appended to the enemy team; a null one is ignored |
| Encounters.CombatEncounter.GenerateEnemies | src/game/dungeon/encounters/CombatEncounter.cpp:102-114 | the enemy team becomes `count` (or no) generated enemies, the `i`-th from draws `2i` and `2i+1`, each with the starting stats of its kind and level |
| Encounters.CombatEncounter.Start | src/game/dungeon/encounters/CombatEncounter.cpp:31-46 | a completed or running encounter is left untouched; otherwise an empty enemy team is first filled with `1 + difficulty / 2` generated enemies, then the fight starts with both teams, placed and queued as `StartCombat` states, and the encounter becomes active |
| Encounters.CombatEncounter.Open | src/game/dungeon/encounters/CombatEncounter.cpp:35-44 | on an encounter neither completed nor running: the enemy team filled when empty, the battlefield deployed, the components on their tiles and the combatants queued, the encounter active |
| Encounters.CombatEncounter.Launch | src/game/dungeon/encounters/CombatEncounter.cpp:41-44 | the encounter becomes active and the combat system is selecting an action with the encounter's two teams, both lines deployed, their components on their clamped tiles and the combatants queued for round 1 |
| Encounters.CombatEncounter.Engage | src/game/dungeon/encounters/CombatEncounter.cpp:42 | the combat system started on the encounter's teams: what `StartCombat` states, with the enemies' stats untouched |
| Encounters.CombatEncounter.Update | src/game/dungeon/encounters/CombatEncounter.cpp:48-78 | an active encounter whose fight has a verdict completes with the matching result and stops; otherwise nothing changes |
| Encounters.CombatEncounter.Complete | src/game/dungeon/encounters/CombatEncounter.cpp:84-90 | the encounter completes as the completion rule says and is no longer active |
| Encounters.TreasureValueBounds | src/game/dungeon/encounters/TreasureEncounter.cpp:93-181 | a generated item is worth at least 1 and lies within `level` below to twice `level` above its kind's base value |
| Encounters.Dealing | src/game/dungeon/encounters/TreasureEncounter.cpp:77-91 | dealing `n` items yields exactly `n` items |
| Encounters.DealingNext | src/game/dungeon/encounters/TreasureEncounter.cpp:77-91 | dealing one more item appends the item generated from the next three draws |
| Encounters.DealingValues | src/game/dungeon/encounters/TreasureEncounter.cpp:77-91 | every dealt item is worth at least 1 |
| Encounters.TreasureEncounter.constructor | src/game/dungeon/encounters/TreasureEncounter.cpp:8-26 | a new treasure encounter is open, has the quality-specific description, a quality of at least 1 and no items |
| Encounters.TreasureEncounter.AddTreasureItem | src/game/dungeon/encounters/TreasureEncounter.cpp:73-75 | the item is appended to the treasure |
| Encounters.TreasureEncounter.GenerateTreasure | src/game/dungeon/encounters/TreasureEncounter.cpp:77-91 | the treasure becomes the `1 + quality / 2` items dealt from the draws, three draws per item |
| Encounters.TreasureEncounter.Start | src/game/dungeon/encounters/TreasureEncounter.cpp:28-41 | a completed or running encounter is left untouched; otherwise an empty treasure is generated first and the encounter becomes active |
| Encounters.TreasureEncounter.Update | src/game/dungeon/encounters/TreasureEncounter.cpp:43-53 | an active encounter whose display time has run out completes as `Completed` and stops; otherwise nothing changes |
| Encounters.TreasureEncounter.Complete | src/game/dungeon/encounters/TreasureEncounter.cpp:59-71 | the encounter completes as the completion rule says and is no longer active |
| Rooms.IdsOf | src/game/dungeon/Room.cpp:87-92 | the ids a room's link list answers to, one per link and in link order |
| Rooms.Drop | src/game/dungeon/Room.cpp:64-85 | the links left once every link to id `k` is gone: only links from the list, none to `k`, and every link to another id kept |
| Rooms.FirstWith | src/game/dungeon/Room.cpp:66-69 | the link the search finds is in the list and has the wanted id |
| Rooms.RemoveFirstLength | src/game/dungeon/Room.cpp:64-85 | erasing the first link to `k` shortens the list by one when there is such a link, and leaves it unchanged otherwise |
| Rooms.RemoveFirstSub | src/game/dungeon/Room.cpp:76 | erasing a link never adds one |
| Rooms.DropRemoveFirst | src/game/dungeon/Room.cpp:76 | erasing the first link to `k` leaves the links to every other id as they were |
| Rooms.AbsentInSub | src/game/dungeon/Room.cpp:76 | a list obtained by erasing links from a list without id `k` has no link to `k` either |
| Rooms.RemoveFirstDistinct | src/game/dungeon/Room.cpp:64-85 | when ids are distinct, erasing the first link to `k` removes every link to `k` and keeps ids distinct |
| Rooms.RemoveFirstKeepsDistinct | src/game/dungeon/Room.cpp:64-85 | erasing the first link to `k` keeps the links' ids distinct |
| Rooms.RemoveFirstAvoids | src/game/dungeon/Room.cpp:64-85 | erasing a link never brings in a link to an id the list did not have |
| Rooms.NoneWith | src/game/dungeon/Room.cpp:64-85 | removing links to an id that no link carries changes nothing |
| Rooms.DropAbsent | src/game/dungeon/Room.cpp:71 | when the room is not linked to `k` the search finds nothing and the links stay as they are |
| Rooms.Room.constructor | src/game/dungeon/Room.cpp:7-39 | a new room has its id and type, the type's description, is neither visited nor cleared, sits at (0, 0) and has no links, encounter or properties |
| Rooms.Room.AddConnection | src/game/dungeon/Room.cpp:47-62 | a null room or an id already linked changes nothing; otherwise the room is appended and links back unless it already links this id, so afterwards both sides are linked, and links with distinct ids stay distinct |
| Rooms.Room.RemoveConnection | src/game/dungeon/Room.cpp:64-85 | only links between this id and `roomId` disappear, across all reachable rooms; with distinct ids every link to `roomId` is gone from this room and the removed room no longer links back; nothing changes when no such link exists |
| Rooms.Room.Unlink | src/game/dungeon/Room.cpp:71-84 | once a link to `roomId` exists: it is erased, the reverse link is erased in turn, and nothing but links between the two ids changes |
| Rooms.Room.Visit | src/game/dungeon/Room.cpp:98-103 | the room is visited afterwards, whether or not it was before |
| Rooms.Room.Clear | src/game/dungeon/Room.cpp:105-110 | the room is cleared afterwards, whether or not it was before |
| Rooms.Room.SetEncounter | src/game/dungeon/Room.cpp:112-114 | the room holds the given encounter |
| Rooms.Room.SetDescription | src/game/dungeon/Room.h:58 | the description becomes the given text |
| Rooms.Room.SetPosition | src/game/dungeon/Room.h:61 | the layout position becomes the given pair |
| Rooms.Room.SetProperty | src/game/dungeon/Room.cpp:120-122 | the key reads back the new value and every other key reads as before |
| Rooms.Room.GetProperty | src/game/dungeon/Room.cpp:124-130 | the stored value for a present key, the empty string for an absent one |
| Rooms.ShrunkStep | src/game/dungeon/Room.cpp:76 | erasing one link to `b` from a room of id `a` removes only a link between the two ids |
| Rooms.ShrunkTrans | src/game/dungeon/Room.cpp:76-81 | removing a link and then its reverse still removes only links between the two ids |
| Rooms.StillClosed | src/game/dungeon/Room.cpp:76 | erasing links from one room keeps every link inside the set of reachable rooms |
| Rooms.NoneLeft | src/game/dungeon/Room.cpp:76-81 | after the reverse removal, a room whose links had distinct ids has no link left to `k` |
| Rooms.PushDistinct | src/game/dungeon/Room.cpp:49-54 | appending a link to an id not yet linked keeps ids distinct and appends that id |
| DungeonRules.CorrectedInBounds | src/game/dungeon/DungeonGenerator.h:30-44 | with every clamp applied to its field, the constructor yields a grid of at least 3 by 3, at least 5 rooms, at most a third of them treasure rooms, difficulty at least 1 and a loop chance in [0, 1], whatever the arguments |
| DungeonRules.ConstructorsAgreeInBounds | src/game/dungeon/DungeonGenerator.h:30-44 | on arguments already within the bounds the constructor as written and the corrected one give the same parameters |
| DungeonRules.AsWrittenKeepsOutOfBounds | src/game/dungeon/DungeonGenerator.h:37-43 | the clamps as written assign the shadowing arguments, so a 1 by 1 grid, 2 rooms, difficulty 0 and loop chance -0.5 reach the fields unchanged and break the bounds |
| DungeonRules.RoomTarget | src/game/dungeon/DungeonGenerator.cpp:51-60 | the walk aims for the requested number of rooms, capped by the grid size, and never fewer than 5 |
| DungeonRules.Shuffled | src/game/dungeon/DungeonGenerator.cpp:100 | a shuffled list has the length of the original |
| DungeonRules.ShuffledPermutes | src/game/dungeon/DungeonGenerator.cpp:100 | a shuffle is a permutation: every element occurs as often as before |
| DungeonRules.ShuffledHas | src/game/dungeon/DungeonGenerator.cpp:249 | an element is in the shuffled list exactly when it is in the original |
| DungeonRules.DistinctRemove | src/game/dungeon/DungeonGenerator.cpp:249 | taking one element out of a list without repeats leaves a list without repeats that no longer holds it |
| DungeonRules.ShuffledDistinct | src/game/dungeon/DungeonGenerator.cpp:249 | shuffling a list without repeats, such as the normal-room indices, gives a list without repeats |
| DungeonRules.ShuffledDirections | src/game/dungeon/DungeonGenerator.cpp:95-105 | every one of the four directions is tried in whatever order the shuffle gives |
| DungeonRules.WalkKind | src/game/dungeon/DungeonGenerator.cpp:113-123 | a walk step makes the exit exactly on the middle cell of the last column, the boss exactly on the cell before it when bosses are enabled, and a normal room everywhere else |
| DungeonRules.ToInt32 | src/game/dungeon/DungeonGenerator.cpp:239 | narrowing to int gives a value in the 32-bit range congruent to the input modulo 2^32 |
| DungeonRules.ToSize | src/game/dungeon/DungeonGenerator.cpp:413-414 | conversion to `size_t` gives a value in the 64-bit unsigned range |
| DungeonRules.NormalDifficultyRange | src/game/dungeon/DungeonGenerator.cpp:409-417 | with a non-negative difficulty, a normal room's strength is `1 + dist * difficulty / (height + width)` capped at `difficulty + 2`, so it lies between 1 and `difficulty + 2` |
| DungeonRules.QuotientSmall | src/game/dungeon/DungeonGenerator.cpp:413-414 | dividing a 31-bit product by a grid size of at least 2 stays in the 30-bit range, so the narrowing back to int is exact |
| DungeonRules.NormalDifficultyWraps | src/game/dungeon/DungeonGenerator.cpp:413-417 | a negative difficulty wraps in the unsigned division: distance 1, difficulty -1 on a 5 by 5 grid gives a negative strength |
| DungeonRules.TreasureQuality | src/game/dungeon/DungeonGenerator.cpp:430 | a treasure room's chest has quality `1 + difficulty / 2` for a non-negative difficulty |
| DungeonRules.RoomsLessThree | src/game/dungeon/DungeonGenerator.cpp:238-239 | the unsigned `size - 3` narrowed back to int is exactly `size - 3`, negative for fewer than three rooms |
| DungeonRules.Unit | src/game/dungeon/DungeonGenerator.cpp:394-395 | a loop draw is a fraction in [0, 1) |
| Dungeon.ReachPathSnoc | src/game/dungeon/DungeonGenerator.cpp:488-492 | a path of links to a room extends along any link of the room it ends at |
| Dungeon.TracedPush | src/game/dungeon/DungeonGenerator.cpp:489-492 | marking and queueing an unmarked neighbour of the room being expanded keeps every mark backed by a path of links from the entrance |
| Dungeon.QueuedPush | src/game/dungeon/DungeonGenerator.cpp:489-492 | queueing a room with a new mark keeps every queued room marked and at the end of its recorded path |
| Dungeon.ExpandedAdd | src/game/dungeon/DungeonGenerator.cpp:484-494 | a room whose neighbours are all marked joins the expanded rooms |
| Dungeon.ExpandedGrow | src/game/dungeon/DungeonGenerator.cpp:484-494 | further marks never undo what the expanded rooms already satisfy |
| Dungeon.CardBelow | src/game/dungeon/DungeonGenerator.cpp:474-477 | the ids a search marks number at most the rooms of the floor |
| Dungeon.FirstFree | src/game/dungeon/DungeonGenerator.cpp:105-112 | the position of the first direction of the order that leads to a free cell on the grid, or the order's length when none does |
| Dungeon.NoneFreeBoxedIn | src/game/dungeon/DungeonGenerator.cpp:105-154 | when no direction of the shuffled order leads to a free cell, none of the four directions does, so the walk may backtrack |
| Dungeon.FillKeepsBoxedIn | src/game/dungeon/DungeonGenerator.cpp:127 | placing a room never frees a cell, so a cell with no free neighbour keeps none |
| Dungeon.PlacedSnoc | src/game/dungeon/DungeonGenerator.cpp:126-128 | appending a room whose id is the room count on a free cell keeps rooms, ids and grid cells in step |
| Dungeon.PlacedReplace | src/game/dungeon/DungeonGenerator.cpp:182-192 | putting a room with id `k` in place of room `k`, on its cell, keeps rooms, ids and grid cells in step |
| Dungeon.SpecialsSnoc | src/game/dungeon/DungeonGenerator.cpp:126-138 | appending a room leaves the entrance, exit and boss rooms where they are |
| Dungeon.SpecialsReplace | src/game/dungeon/DungeonGenerator.cpp:254-260 | replacing a normal room leaves the entrance, exit and boss rooms where they are |
| Dungeon.FarthestUnique | src/game/dungeon/DungeonGenerator.cpp:168-178 | the farthest normal room, first in row-major order among those at the largest distance, is unique |
| Dungeon.ScannedRow | src/game/dungeon/DungeonGenerator.cpp:168-169 | the scan's knowledge at the end of a row is its knowledge at the start of the next |
| Dungeon.NoNormalBeside | src/game/dungeon/DungeonGenerator.cpp:204-231 | when none of the four listed directions leads to a normal room, no direction does |
| Dungeon.Neighbour | src/game/dungeon/DungeonGenerator.cpp:360-367 | the room on the adjacent cell in a direction, present exactly when that cell lies on the grid and is occupied |
| Dungeon.LinksFirstStep | src/game/dungeon/DungeonGenerator.cpp:360-375 | once the neighbour in the next listed direction is linked, the links cover one more direction |
| Dungeon.RowCountSnoc | src/game/dungeon/DungeonGenerator.cpp:391-392 | counting one more cell of a row adds one exactly when that cell holds a room |
| Dungeon.DirIndex | src/game/dungeon/DungeonGenerator.cpp:355-357 | every direction has its place in the listed order |
| Dungeon.WalkedPush | src/game/dungeon/DungeonGenerator.cpp:114-141 | placing a room of the walk's type on a free cell and pushing that cell keeps the walk's invariant |
| Dungeon.WalkedPop | src/game/dungeon/DungeonGenerator.cpp:152-154 | popping a boxed-in cell keeps the walk's invariant: every room's cell is on the path or boxed in |
| Dungeon.NormalsOf | src/game/dungeon/DungeonGenerator.cpp:241-246 | exactly the indices of the normal rooms, in increasing order |
| Dungeon.ConvertedStep | src/game/dungeon/DungeonGenerator.cpp:252-261 | converting the next index of the order extends the conversion by one room |
| Dungeon.TreasureFromNormal | src/game/dungeon/DungeonGenerator.cpp:238-261 | the conversion changes exactly the rooms at the first indices of the shuffle, each a normal room turned into a treasure room, and never the same room twice |
| Dungeon.OrderNormal | src/game/dungeon/DungeonGenerator.cpp:241-249 | the shuffled order lists distinct indices of normal rooms |
| Dungeon.EncountersOf | src/game/dungeon/DungeonGenerator.cpp:403-459 | the encounters the floor's rooms hold, one per room |
| Dungeon.NewRoom | src/game/dungeon/DungeonGenerator.cpp:286-288 | a new room with the given id, type, position and description, unlinked, without encounter, neither visited nor cleared |
| Dungeon.Generator.constructor | src/game/dungeon/DungeonGenerator.cpp:20-24 | a new generator draws from the given stream from its start and holds an empty floor |
| Dungeon.Generator.Clear | src/game/dungeon/DungeonGenerator.cpp:26-32 | the floor is forgotten: no rooms, no entrance, exit or boss room, an empty grid |
| Dungeon.Generator.InitializeGrid | src/game/dungeon/DungeonGenerator.cpp:273-276 | the grid becomes `height` rows of `width` empty cells |
| Dungeon.Generator.PlaceRoomAt | src/game/dungeon/DungeonGenerator.cpp:278-284 | a cell on the grid receives the room, which takes that position; a cell off the grid changes nothing |
| Dungeon.Generator.CreateRoom | src/game/dungeon/DungeonGenerator.cpp:286-335 | a new room with the given id, type and position, unlinked and without encounter; only a normal room consumes a draw, for its description |
| Dungeon.Generator.ConnectRooms | src/game/dungeon/DungeonGenerator.cpp:337-341 | with both rooms present the first ends up linked to the second and, unless it already was, the second to the first; links only grow, by those two rooms; two unlinked distinct rooms each gain exactly the other; a missing room changes nothing |
| Dungeon.Generator.AddRoom | src/game/dungeon/DungeonGenerator.cpp:126-128 | a new room of the given type takes the next id and the free cell, is appended to the floor, and the floor stays consistent |
| Dungeon.Generator.Attach | src/game/dungeon/DungeonGenerator.cpp:127-128 | the new room is on the free cell and at the end of the floor, and the floor stays consistent |
| Dungeon.Generator.Build | src/game/dungeon/DungeonGenerator.cpp:113-138 | the walk's new room has the type its cell calls for, is linked both ways with the room it came from and only with it, and becomes the exit or boss room when it is one |
| Dungeon.Generator.DrawOrder | src/game/dungeon/DungeonGenerator.cpp:95-100 | the directions come in the order one draw selects |
| Dungeon.Generator.FirstFreeDirection | src/game/dungeon/DungeonGenerator.cpp:105-112 | the scan stops at the first direction of the order that leads to a free cell |
| Dungeon.Generator.Step | src/game/dungeon/DungeonGenerator.cpp:90-154 | one walk step places a room exactly when some shuffled direction leads to a free cell, on the first such cell, linked to the current room; otherwise the current cell is boxed in and only the draw is consumed |
| Dungeon.Generator.Advance | src/game/dungeon/DungeonGenerator.cpp:89-160 | an iteration of the walk either places one new room and pushes its cell or pops the path, and keeps the walk's invariant |
| Dungeon.Generator.Walk | src/game/dungeon/DungeonGenerator.cpp:62-160 | the walk keeps the entrance first, places at most `target` rooms, each of the type its cell calls for, and when it stops short every room is boxed in |
| Dungeon.Generator.Recreate | src/game/dungeon/DungeonGenerator.cpp:182-192 | a normal room is replaced, on the floor and the grid, by a new unlinked room of the given type with the same id and cell |
| Dungeon.Generator.Replace | src/game/dungeon/DungeonGenerator.cpp:184-192 | the new room takes the normal room's place on the floor and its cell on the grid, and the floor stays consistent |
| Dungeon.Generator.Convert | src/game/dungeon/DungeonGenerator.cpp:180-195 | a normal room is recreated with the given type, and a new exit or boss room becomes the floor's exit or boss |
| Dungeon.Generator.FarthestNormal | src/game/dungeon/DungeonGenerator.cpp:163-178 | the first normal room in row-major order at the largest positive distance from the entrance, or none when every normal room is on the entrance's cell |
| Dungeon.Generator.ExitFallback | src/game/dungeon/DungeonGenerator.cpp:162-196 | a floor without an exit gets one by recreating the farthest normal room, unlinked; with no such room, or an exit already there, nothing changes |
| Dungeon.Generator.BossFallback | src/game/dungeon/DungeonGenerator.cpp:198-232 | when a boss is wanted and missing but an exit exists, a normal room next to the exit is recreated as the unlinked boss room; when no neighbour is normal, or nothing is missing, nothing changes |
| Dungeon.Generator.BossNextTo | src/game/dungeon/DungeonGenerator.cpp:204-231 | the first listed direction from the exit that leads to a normal room decides which room becomes the boss; none found means nothing changes |
| Dungeon.Generator.FirstNormalNeighbour | src/game/dungeon/DungeonGenerator.cpp:208-213 | the first listed direction that leads to a normal room, or 4 |
| Dungeon.Generator.Join | src/game/dungeon/DungeonGenerator.cpp:370 | the first room ends up linked to the second and the second back to the first unless the first was already linked by id; each room gains no link but the other, links only grow, and created rooms still link only created rooms |
| Dungeon.Generator.TryConnectAdjacentRooms | src/game/dungeon/DungeonGenerator.cpp:343-378 | an empty or off-grid cell changes nothing and reports false; otherwise the room ends up linked to every occupied neighbour, and the result says whether some neighbour was not linked before |
| Dungeon.Generator.ConnectToward | src/game/dungeon/DungeonGenerator.cpp:361-373 | the neighbour in one direction is linked when it exists, and a new link is made exactly when it was not linked before |
| Dungeon.Generator.CreateRandomLoops | src/game/dungeon/DungeonGenerator.cpp:380-401 | a non-positive chance changes nothing; otherwise one draw is consumed per room on the grid and the floor stays consistent |
| Dungeon.Generator.LoopRow | src/game/dungeon/DungeonGenerator.cpp:391-399 | one row consumes one draw per room on it |
| Dungeon.Generator.NormalRoomIndices | src/game/dungeon/DungeonGenerator.cpp:241-246 | the indices of the normal rooms, in increasing order |
| Dungeon.Generator.PlaceTreasure | src/game/dungeon/DungeonGenerator.cpp:237-261 | the first `min(numTreasureRooms, size - 3)` (at least 0, at most all) indices of one shuffle of the normal rooms become new treasure rooms with the same ids; every other room is kept |
| Dungeon.Generator.DrawNormalOrder | src/game/dungeon/DungeonGenerator.cpp:241-249 | the normal-room indices in the order one draw selects, distinct and all naming normal rooms |
| Dungeon.Generator.ConvertFirst | src/game/dungeon/DungeonGenerator.cpp:252-261 | the first `count` (at most all) rooms the order names become new treasure rooms; every other room is kept |
| Dungeon.Generator.AssignEncounters | src/game/dungeon/DungeonGenerator.cpp:403-459 | every room holds the encounter its type calls for: a fight whose strength grows with the distance from the entrance, a chest of quality `1 + difficulty / 2`, a boss fight of strength `difficulty + 3`; the entrance and exit are left as they were |
| Dungeon.Generator.Equip | src/game/dungeon/DungeonGenerator.cpp:406-457 | one room gets the new encounter its type calls for |
| Dungeon.Generator.Reachable | src/game/dungeon/DungeonGenerator.cpp:471-494 | the search marks the entrance's id, every marked id has a path of links from the entrance, and every expanded room has all its neighbours marked |
| Dungeon.Generator.Expand | src/game/dungeon/DungeonGenerator.cpp:485-493 | expanding a room marks all its neighbours and queues exactly the newly marked ones |
| Dungeon.Generator.ValidateDungeon | src/game/dungeon/DungeonGenerator.cpp:461-531 | without an entrance or exit nothing is searched; otherwise the marked ids are those of the search: the entrance is marked and expanded, every marked id has a path of links from the entrance ending at an expanded room, and every expanded room has its neighbours' ids marked; when the exit's id is unmarked the nearest marked room is linked to the exit and, unless it was already linked to the exit's id, the exit back to it; those two rooms gain no link but each other and no other room's links change |
| Dungeon.SearchComplete | src/game/dungeon/DungeonGenerator.cpp:471-494 | when no two rooms share an id, a search that has closed every expanded room's neighbours marks the last room of every path of links from the entrance, so an unmarked exit id means no such path reaches the exit |
| Dungeon.Generator.RepairExit | src/game/dungeon/DungeonGenerator.cpp:496-522 | the first marked room nearest to the exit is linked to it and, unless it was already linked to the exit's id, the exit back to it; those two rooms gain no link but each other, links only grow, and no other room changes; when no marked room is nearer than the largest int nothing is linked |
| Dungeon.Generator.ClosestReached | src/game/dungeon/DungeonGenerator.cpp:500-514 | the first marked room at the smallest distance from the cell, below the largest int, or none |
| Dungeon.Generator.GenerateFloor | src/game/dungeon/DungeonGenerator.cpp:34-271 | a consistent floor of at least 1 and at most the room target of new rooms, the entrance first on the middle cell of the first column |
| Dungeon.Generator.Furnish | src/game/dungeon/DungeonGenerator.cpp:237-264 | after the treasure conversion every room holds the encounter its type calls for, and the floor keeps its size |
| Dungeon.Generator.LayOut | src/game/dungeon/DungeonGenerator.cpp:34-235 | the walk and the exit and boss fallbacks leave a consistent floor of at most the room target of new rooms, entrance first |
| Dungeon.Generator.PlaceEntrance | src/game/dungeon/DungeonGenerator.cpp:47-67 | a fresh grid of the given size and a floor holding only the new unlinked entrance on the middle cell of the first column |
| Dungeon.Generator.IndexOfId | src/game/dungeon/DungeonGenerator.cpp:187-192 | the index of the first room with the id, or the room count when there is none; on a consistent floor the id itself |
| Dungeon.Generator.Link | src/game/dungeon/DungeonGenerator.cpp:337-341 | two distinct unlinked rooms each gain exactly the other as a link |
| Dungeon.Generator.RoomOnCell | src/game/dungeon/DungeonGenerator.cpp:278-284 | the room on an occupied cell is the room whose index is its id, and that index records the cell |
| Dungeon.Generator.GetRoom | src/game/dungeon/DungeonGenerator.cpp:545-556 | the first room with the id, or null when no room has it; on a consistent floor the room at that index |

## Left out

- Console output, the `EventSystem` events published by `StartCombat`, `ProcessTurn` and `TryEscape`, rendering, input, the state manager and JSON data loading are not part of this model.
- The generator's singleton, its clock-based seeding and `std::random_device` are not modelled: the draws are an input stream (see the description above).
- Memory ownership (`shared_ptr`, the non-owning back link in `Room::AddConnection`, destructors) is not modelled; rooms and entities are objects with identity.
- `Entity` and its component container are reduced to a class with a name, an optional stats component and an optional position component; a missing component that the code would fetch with `GetComponent` (which throws) is either checked first, as the code does, or required.
- The `StatusEffectsComponent` is not a field of `Entity`: nothing in the combat engine reads it, and the component keeps its own owner as in the code.
- `StatsComponent::CalculateDamage` is a floating-point formula that nothing in the core calls; it is not modelled.
- Stats.StatsComponent.RecalculateDerivedStats: the `float` ratio used to rescale health is idealised as the integer quotient `newMax * current / oldMax`, truncated toward zero.
- DungeonRules.Unit: the `float` draw compared with `loopChance` is idealised as a fraction with 24 bits.
- Encounters.CombatEncounter.Update: the `timeElapsed` timer (a `float`) is not modelled; it only feeds the console.
- Encounters.TreasureEncounter.Update: the `float` display timer is replaced by a boolean input, `timedOut`, that says whether it has run out.
- DungeonRules.Shuffled: `std::shuffle` is modelled as one draw that selects an order, not as the library's sequence of swaps; every order is reachable, and the proved properties hold for every order.
- `unordered_map` iteration over the `mod_` keys in `CreateEffectsFromProperties` has no fixed order; the key order is an input (`keys`), required to list each key of the property map once.
- Battlefields.Battlefield.MoveEntity: requires that a listed entity's component reads a valid tile; the code would index the tile table out of bounds otherwise.
- Actions.Action.Execute: when a movement action fails the usability check, requires the user to have a position component, which the code reads when it builds the diagnostic; the same condition is carried by `Combat.CombatSystem.ProcessTurn`, `Attempt` and `Act`.
- Actions.Action.Apply: an installed callback counts as firing, but what the callback does is not modelled; it is code supplied by the caller.
- Combat.CombatSystem.Begin: sets the state to `SelectingAction` before it initialises the turn queue, the reverse of CombatSystem.cpp:51-54; the two writes touch different objects and nothing runs between them, so the outcome is the same.
- Encounters.CombatEncounter.Launch: marks the encounter active before it starts the combat system, the reverse of CombatEncounter.cpp:42-43; the flag is not read by `StartCombat`, so the outcome is the same.
- Combat.CombatSystem.Act: the state becomes `ExecutingAction` after the action runs rather than before; nothing the action reads depends on the combat state.
- Combat.CombatSystem.ProcessTurn: the check that the current entity is the turn manager's current entity compares a value with itself and never fails, so it is not modelled.
- `CombatSystem::SelectEnemyAction` always returns no action; it is folded into `Combat.CombatSystem.ProcessEnemyTurn`.
- Getters and trivial queries (`GetQueueSize`, `GetCurrentEntity`, `GetCurrentRound`, the stats and position getters, `GetAvailableActions`, which always returns an empty list, and `IsEntityOnPlayerSide`, which nothing calls) are fields or predicates of the model without rows of their own; `HasEffect` and `HasEffectByName` are predicates.
- The no-op `Start` and `Update(float)` of the components are not modelled.
- Dungeon.Generator.CreateRoom: the contract does not state the description a room gets; the description is computed by `DungeonRules.CreatedDescription`, one draw for a normal room.
- Dungeon.Generator.CreateRandomLoops: states the draws consumed and that the floor stays consistent, not which rooms the accepted draws linked; `Dungeon.Generator.TryConnectAdjacentRooms` states that per room.
- Dungeon.Generator.LoopRow: states the draws one row consumes and that the floor stays consistent, not which rooms the accepted draws linked; `Dungeon.Generator.TryConnectAdjacentRooms` states that per room.
- Dungeon.Generator.LayOut: states the floor's size, consistency and entrance, not whether the fallbacks produced an exit or a boss room; `Dungeon.Generator.ExitFallback` and `Dungeon.Generator.BossFallback` state that.
- Dungeon.Generator.GenerateFloor: states the floor's size, consistency and entrance; the encounters (`Dungeon.Generator.Furnish`), the exit and boss fallbacks, the treasure conversion and the repair are stated on the methods it calls, not repeated in its own contract.
- Dungeon.Generator.GenerateFloor: requires a grid of at least 1 by 1. With height 0 the code reads the first row of an empty grid (DungeonGenerator.cpp:279) and fails. With width 0 and a positive height it does not fail, because `PlaceRoomAt` skips every placement; excluding that degenerate floor is a simplification of the model.
- Dungeon.Generator.AssignEncounters: states the encounter each room holds, not that the encounter objects are new; `Dungeon.Generator.Equip` states that per room.
- The `int` overflow of `width * height` and of the distance products in the generator is not modelled beyond what `DungeonRules` writes out; the room count is required to fit in an `int`.
- The combat engine's 32-bit `int` arithmetic is modelled on unbounded integers, assuming its values stay within 32 bits: the maximum health `10 + 5 * Constitution` (StatsComponent.cpp:109), the doubled critical damage (Action.cpp:47), the Speed totals and the escape chance `50 + 5 * (…)` in `TryEscape` (CombatSystem.cpp:251, 263, 273), `currentHealth + amount` in `Heal` (StatsComponent.h:62) and `-std::abs(magnitude)` in `CreateStatusEffect` (StatusEffectsComponent.cpp:270). Values that wrap, such as a doubled damage that turns negative and then raises health, are not modelled.
- Turns.TopIndex: among turns of equal initiative the model's top is the first in queue order; `std::priority_queue` leaves that order to its heap, which need not keep insertion order. `Turns.TurnManager.Initialize`, `GetNextEntity`, `EndTurn` and `GetTurnOrder` state which entity acts under this choice.
- The descriptions and names built with `std::stringstream` are modelled for non-negative ids and numbers (`Common.IntToString`, `Common.NatToString`); formatting of other values is not modelled.

## Findings

| source | as written | input that shows it | evidently intended | confidence | as-written member | corrected member |
|---|---|---|---|---|---|---|
| src/game/dungeon/DungeonGenerator.h:37-43 | the "ensure valid bounds" clamps assign the constructor's parameters, which shadow the fields, so width, height, room count, difficulty and loop chance are stored unclamped; only the treasure count (parameter `treasureRooms`) is capped, by a third of the clamped parameter | `DungeonGenerationParams(1, 1, 2, 0, true, 0, -0.5f)` stores a 1 by 1 grid, 2 rooms, difficulty 0 and loop chance -0.5 | every clamp applies to the stored field, so the parameters always satisfy the bounds | not executed | DungeonRules.AsWrittenKeepsOutOfBounds | DungeonRules.CorrectedInBounds |
