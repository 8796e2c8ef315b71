/**
 * Combat actions.  An action carries a cooldown counter, an integer
 * property map (absent keys read as 0) and an ordered list of effects;
 * when the list is empty the effects are synthesised from the
 * properties on first use.  Each effect has its own applicability
 * check and execution.
 */
module Actions {
  import opened Common
  import opened Stats
  import opened Positions
  import opened Entities
  import opened Battlefields

  datatype ActionType = Attack | Buff | Debuff | Heal | Movement | Special | Compound

  /**
   * Whom an effect acts on: the action's target, or, for the variants a
   * compound action builds (self-heal, self-move, self-buff), its user.
   */
  datatype Subject = OnTarget | OnUser

  /** The four effect kinds; a damage effect always acts on the target. */
  datatype ActionEffect =
    | DamageEffect(damage: int, isPhysical: bool)
    | HealingEffect(amount: int, subject: Subject)
    | MovementEffect(positionChange: int, subject: Subject)
    | StatModifierEffect(stat: StatType, value: int, duration: int, subject: Subject)

  function Pick(s: Subject, user: Entity?, target: Entity?): (who: Entity?)
    ensures who == user || who == target
  {
    if s == OnUser then user else target
  }

  /** The entity an effect acts on. */
  function SubjectOf(eff: ActionEffect, user: Entity?, target: Entity?): (who: Entity?)
    ensures who == user || who == target
    ensures eff.DamageEffect? ==> who == target
  {
    if eff.DamageEffect? then target else Pick(eff.subject, user, target)
  }

  /** The entity objects, their components, and the battlefield and its slot table. */
  function Footprint(user: Entity?, target: Entity?, bf: Battlefield?): set<object?>
    reads user, target
  {
    var fixed: set<object?> := {user, target, bf};
    var table: set<object?> := if bf != null then {bf.positions} else {};
    fixed + table + Parts(user) + Parts(target)
  }

  /** What executing an action may write: the components of both parties and the slot table. */
  function Touched(user: Entity?, target: Entity?, bf: Battlefield?): set<object>
    reads user, target
  {
    var table: set<object> := if bf != null then {bf.positions} else {};
    Parts(user) + Parts(target) + table
  }

  /** The components an entity carries. */
  function Parts(e: Entity?): set<object>
    reads e
  {
    PartsOf(PartyOf(e))
  }

  /** The components a party carries. */
  function PartsOf(p: Party): set<object>
  {
    var s: set<object> := if p.stats != null then {p.stats} else {};
    var c: set<object> := if p.pos != null then {p.pos} else {};
    s + c
  }

  /**
   * Whether an effect may be applied.  Damage needs two distinct
   * entities with stats; healing needs a subject below full health;
   * movement needs a battlefield on which the subject's shifted tile is
   * a free tile it may move to; a stat modifier needs a subject with stats.
   */
  predicate CanApply(eff: ActionEffect, user: Entity?, target: Entity?, bf: Battlefield?)
    requires bf != null ==> bf.Valid()
    reads bf, if bf != null then {bf.positions} else {}, Footprint(user, target, bf)
  {
    var who := SubjectOf(eff, user, target);
    match eff
    case DamageEffect(_, _) =>
      user != null && target != null && user.stats != null && target.stats != null && user != target
    case HealingEffect(_, _) =>
      who != null && who.stats != null && who.stats.currentHealth < who.stats.maxHealth
    case MovementEffect(change, _) =>
      who != null && bf != null && who.position != null &&
      IsValidPosition(who.position.position + change) && bf.Movable(who, who.position.position + change)
    case StatModifierEffect(_, _, _, _) =>
      who != null && who.stats != null
  }

  /** The guard an effect's execution checks before it acts; it reports success exactly when this holds. */
  predicate Runs(eff: ActionEffect, user: Entity?, target: Entity?, bf: Battlefield?)
    requires bf != null ==> bf.Valid()
    reads bf, if bf != null then {bf.positions} else {}, Footprint(user, target, bf)
  {
    var who := SubjectOf(eff, user, target);
    match eff
    case DamageEffect(_, _) =>
      user != null && target != null && user.stats != null && target.stats != null
    case HealingEffect(_, _) =>
      who != null && who.stats != null
    case MovementEffect(change, _) =>
      who != null && bf != null && who.position != null && bf.Movable(who, who.position.position + change)
    case StatModifierEffect(_, _, _, _) =>
      who != null && who.stats != null
  }

  /**
   * An applicable effect always runs.  The converse fails: healing runs
   * at full health and damage runs when user and target coincide.
   */
  lemma ApplicableEffectRuns(eff: ActionEffect, user: Entity?, target: Entity?, bf: Battlefield?)
    requires bf != null ==> bf.Valid()
    ensures CanApply(eff, user, target, bf) ==> Runs(eff, user, target, bf)
    ensures eff.StatModifierEffect? ==> (CanApply(eff, user, target, bf) <==> Runs(eff, user, target, bf))
    ensures eff.MovementEffect? ==> (CanApply(eff, user, target, bf) <==> Runs(eff, user, target, bf))
  {
  }

  /**
   * The damage a hit deals: the base plus half (truncated) of the
   * attacking stat, doubled when the critical roll is within the chance.
   */
  function FinalDamage(base: int, attackStat: int, critChance: int, critRoll: int): int
  {
    var d := base + TruncDiv(attackStat, 2);
    if critRoll <= critChance then 2 * d else d
  }

  /** A critical hit deals exactly twice the ordinary damage, which is at least the base for a non-negative stat. */
  lemma FinalDamageShape(base: int, attackStat: int, critChance: int, critRoll: int)
    ensures critRoll <= critChance ==>
              FinalDamage(base, attackStat, critChance, critRoll) == 2 * FinalDamage(base, attackStat, critChance, critChance + 1)
    ensures critRoll > critChance ==>
              FinalDamage(base, attackStat, critChance, critRoll) == base + TruncDiv(attackStat, 2)
    ensures attackStat >= 0 && base >= 0 ==> FinalDamage(base, attackStat, critChance, critRoll) >= base
  {
  }

  /**
   * A damage effect: with stats on both sides, computes the damage from the
   * user's strength (physical) or intellect (magical) and one critical
   * roll, then lets the target take it (one block roll).  Reports success
   * whether or not the hit was blocked.
   */
  method ExecuteDamage(damage: int, isPhysical: bool, user: Entity?, target: Entity?, rng: Rng, cursor: nat)
    returns (ran: bool, next: nat)
    modifies StatsOf(target)`currentHealth
    ensures ran <==> user != null && target != null && user.stats != null && target.stats != null
    ensures !ran ==> next == cursor && unchanged(StatsOf(target))
    ensures ran ==>
              var u := user.stats;
              var t := target.stats;
              var d := FinalDamage(damage, old(u.CurrentStat(if isPhysical then Strength else Intellect)),
                                   old(u.CriticalChance()), Percent(rng(cursor)));
              next == cursor + 2 &&
              t.currentHealth == (if Centile(rng(cursor + 1)) < old(t.BlockChance()) then old(t.currentHealth)
                                  else Max(0, old(t.currentHealth) - d))
  {
    next := cursor;
    if user == null || target == null {
      return false, next;
    }
    if user.stats == null || target.stats == null {
      return false, next;
    }
    var u := user.stats;
    var t := target.stats;
    var bonus;
    if isPhysical {
      bonus := u.GetCurrentStat(Strength);
    } else {
      bonus := u.GetCurrentStat(Intellect);
    }
    var finalDamage := damage + TruncDiv(bonus, 2);
    var critChance := u.CriticalChance();
    var isCritical := Percent(rng(cursor)) <= critChance;
    if isCritical {
      finalDamage := finalDamage * 2;
    }
    var _ := t.TakeDamage(finalDamage, rng(cursor + 1));
    next := cursor + 2;
    ran := true;
  }

  /** A healing effect: heals its subject, never above the maximum. */
  method ExecuteHealing(amount: int, who: Entity?) returns (ran: bool)
    modifies StatsOf(who)`currentHealth
    ensures ran <==> who != null && who.stats != null
    ensures ran ==> who.stats.currentHealth == Min(old(who.stats.currentHealth) + amount, who.stats.maxHealth)
  {
    if who == null || who.stats == null {
      return false;
    }
    who.stats.Heal(amount);
    ran := true;
  }

  /** The frame of a move: the slot table and the mover's component. */
  function MoveFrame(who: Entity?, bf: Battlefield?): set<object>
    reads who
  {
    var table: set<object> := if bf != null then {bf.positions} else {};
    var comp: set<object> := if who != null && who.position != null then {who.position} else {};
    table + comp
  }

  /**
   * A movement effect: shifts its subject by `change` tiles when the
   * battlefield lets it move there.
   */
  method ExecuteMovement(change: int, who: Entity?, bf: Battlefield?) returns (ran: bool)
    requires bf != null ==> bf.Grounded()
    modifies MoveFrame(who, bf)
    ensures bf != null ==> bf.Grounded()
    ensures ran <==> who != null && bf != null && who.position != null &&
                     old(bf.Movable(who, who.position.position + change))
    ensures !ran ==> unchanged(MoveFrame(who, bf))
    ensures ran ==>
              var from := old(who.position.position);
              bf.positions[..] == old(bf.positions[..])[from := Empty][from + change := IndexOf(bf.entities, who)] &&
              who.position.position == Clamp(from + change, 0, who.position.maxPosition) &&
              who.position.maxPosition == old(who.position.maxPosition)
  {
    if who == null || bf == null || who.position == null {
      return false;
    }
    var newPos := who.position.position + change;
    ran := bf.CanMoveTo(who, newPos);
    if ran {
      var k := IndexOf(bf.entities, who);
      assert bf.entities[k] == who;
      var _ := bf.MoveEntity(who, newPos);
    }
  }

  /** A stat modifier effect: adds a timed modifier to its subject's stat. */
  method ExecuteStatModifier(stat: StatType, value: int, duration: int, who: Entity?) returns (ran: bool)
    modifies StatsOf(who)`modifiers, StatsOf(who)`maxHealth, StatsOf(who)`currentHealth
    ensures ran <==> who != null && who.stats != null
    ensures ran ==>
              var s := who.stats;
              s.modifiers == old(s.modifiers)[stat := old(s.ModsOf(stat)) + [Modifier(value, duration)]] &&
              s.CurrentStat(stat) == old(s.CurrentStat(stat)) + value &&
              s.maxHealth == s.MaxHealthFormula() &&
              s.currentHealth == Rescaled(old(s.maxHealth), old(s.currentHealth), s.maxHealth)
  {
    if who == null || who.stats == null {
      return false;
    }
    who.stats.AddModifier(stat, value, duration);
    ran := true;
  }

  /** The fields of a stats component, as a value. */
  datatype StatsState = StatsState(base: map<StatType, int>, mods: map<StatType, seq<Modifier>>, maxHealth: int, health: int)

  /** A position component's tile and the last tile it may take, as a value. */
  datatype Place = Place(tile: int, last: int)

  /** An entity with the components it carries; no effect replaces them. */
  datatype Party = Party(ent: Entity?, stats: StatsComponent?, pos: PositionComponent?)

  /**
   * What effects read and write, as a value: the user and the target,
   * whether there is a battlefield, its entity list and slot table, and
   * the state of each party's components.  When the two parties carry
   * the same component, both copies change together.
   */
  datatype Scene = Scene(user: Party, target: Party, field: bool, roster: seq<Entity>, slots: seq<int>,
                         userStats: StatsState, targetStats: StatsState, userPlace: Place, targetPlace: Place)

  /** A scene after one effect, with the next unused draw. */
  datatype Aftermath = Aftermath(scene: Scene, next: nat)

  /** A scene after a list of effects, which of them ran, and the next unused draw. */
  datatype Trace = Trace(scene: Scene, fired: seq<bool>, next: nat)

  const NoStats := StatsState(map[], map[], 0, 0)
  const NoPlace := Place(0, 0)

  function PartyOf(e: Entity?): Party
    reads e
  {
    if e == null then Party(null, null, null) else Party(e, e.stats, e.position)
  }

  /** The state of a stats component; `NoStats` for none. */
  function StatsValue(c: StatsComponent?): StatsState
    reads c
  {
    if c != null then StatsState(c.baseStats, c.modifiers, c.maxHealth, c.currentHealth) else NoStats
  }

  /** The state of a position component; `NoPlace` for none. */
  function PlaceValue(c: PositionComponent?): Place
    reads c
  {
    if c != null then Place(c.position, c.maxPosition) else NoPlace
  }

  /** The scene the heap holds for an action of `user` on `target` over `bf`. */
  function Snap(user: Entity?, target: Entity?, bf: Battlefield?): (sc: Scene)
    reads user, target, bf, Touched(user, target, bf)
  {
    var u := PartyOf(user);
    var t := PartyOf(target);
    Scene(u, t, bf != null,
          if bf != null then bf.entities else [],
          if bf != null then bf.positions[..] else [],
          StatsValue(u.stats), StatsValue(t.stats), PlaceValue(u.pos), PlaceValue(t.pos))
  }

  /** Whether an effect acts on the user rather than the target. */
  predicate OnSelf(eff: ActionEffect)
  {
    !eff.DamageEffect? && eff.subject == OnUser
  }

  /** The party an effect acts on. */
  function Whom(sc: Scene, eff: ActionEffect): Party
  {
    if OnSelf(eff) then sc.user else sc.target
  }

  function StatsAt(sc: Scene, self: bool): StatsState
  {
    if self then sc.userStats else sc.targetStats
  }

  function PlaceAt(sc: Scene, self: bool): Place
  {
    if self then sc.userPlace else sc.targetPlace
  }

  /** The scene once the stats component of the user (`self`) or the target holds `v`. */
  function WithStats(sc: Scene, self: bool, v: StatsState): Scene
  {
    var c := if self then sc.user.stats else sc.target.stats;
    sc.(userStats := if c != null && sc.user.stats == c then v else sc.userStats,
        targetStats := if c != null && sc.target.stats == c then v else sc.targetStats)
  }

  /** The scene once the position component of the user (`self`) or the target holds `v`. */
  function WithPlace(sc: Scene, self: bool, v: Place): Scene
  {
    var c := if self then sc.user.pos else sc.target.pos;
    sc.(userPlace := if c != null && sc.user.pos == c then v else sc.userPlace,
        targetPlace := if c != null && sc.target.pos == c then v else sc.targetPlace)
  }

  /** `xs` with entry `i` set to `v`; unchanged when `i` is out of range. */
  function Put(xs: seq<int>, i: int, v: int): seq<int>
  {
    if 0 <= i < |xs| then xs[i := v] else xs
  }

  /** An attribute's current value in a stats state: the base (0 when absent) plus every modifier's delta. */
  function StatIn(s: StatsState, t: StatType): int
  {
    (if t in s.base then s.base[t] else 0) + SumDeltas(ModsIn(s.mods, t))
  }

  /** The value formulas are those of the component. */
  lemma StatInAgrees(c: StatsComponent, t: StatType)
    ensures StatIn(StatsValue(c), t) == c.CurrentStat(t)
    ensures Min(30, StatIn(StatsValue(c), Luck) * 2) == c.CriticalChance()
    ensures Min(50, StatIn(StatsValue(c), Defense) * 3) == c.BlockChance()
    ensures 10 + 5 * StatIn(StatsValue(c), Constitution) == c.MaxHealthFormula()
  {
  }

  /** `CanApply`, read off a scene. */
  predicate Applicable(sc: Scene, eff: ActionEffect)
  {
    var who := Whom(sc, eff);
    var self := OnSelf(eff);
    match eff
    case DamageEffect(_, _) =>
      sc.user.ent != null && sc.target.ent != null && sc.user.stats != null && sc.target.stats != null &&
      sc.user.ent != sc.target.ent
    case HealingEffect(_, _) =>
      who.ent != null && who.stats != null && StatsAt(sc, self).health < StatsAt(sc, self).maxHealth
    case MovementEffect(change, _) =>
      var p := PlaceAt(sc, self).tile + change;
      who.ent != null && sc.field && who.pos != null && IsValidPosition(p) &&
      who.ent in sc.roster && p < |sc.slots| && sc.slots[p] == Empty
    case StatModifierEffect(_, _, _, _) =>
      who.ent != null && who.stats != null
  }

  /**
   * What an effect does to a scene once its execution guard holds.
   * Damage: one critical roll and one block roll, the target's health
   * down by the damage, never below zero.  Healing: health up by the
   * amount, never above the maximum.  Movement: the old tile freed, the
   * new one bound, the component moved.  Stat modifier: the timed
   * modifier appended, the maximum recomputed and health rescaled.
   */
  function Fire(sc: Scene, eff: ActionEffect, rng: Rng, cursor: nat): (o: Aftermath)
  {
    match eff
    case DamageEffect(_, _) => Aftermath(Struck(sc, eff, rng, cursor), cursor + 2)
    case HealingEffect(_, _) => Aftermath(Healed(sc, eff), cursor)
    case MovementEffect(_, _) => Aftermath(Moved(sc, eff), cursor)
    case StatModifierEffect(_, _, _, _) => Aftermath(Modified(sc, eff), cursor)
  }

  /** A damage effect: the target loses the mitigated damage unless it blocks. */
  function Struck(sc: Scene, eff: ActionEffect, rng: Rng, cursor: nat): Scene
    requires eff.DamageEffect?
  {
    var u := sc.userStats;
    var t := sc.targetStats;
    var d := FinalDamage(eff.damage, StatIn(u, if eff.isPhysical then Strength else Intellect),
                         Min(30, StatIn(u, Luck) * 2), Percent(rng(cursor)));
    var h := if Centile(rng(cursor + 1)) < Min(50, StatIn(t, Defense) * 3) then t.health else Max(0, t.health - d);
    WithStats(sc, false, t.(health := h))
  }

  /** A healing effect: health rises by the amount, capped at the maximum. */
  function Healed(sc: Scene, eff: ActionEffect): Scene
    requires eff.HealingEffect?
  {
    var s := StatsAt(sc, OnSelf(eff));
    WithStats(sc, OnSelf(eff), s.(health := Min(s.health + eff.amount, s.maxHealth)))
  }

  /** A movement effect: the mover leaves its tile for the one `change` away. */
  function Moved(sc: Scene, eff: ActionEffect): Scene
    requires eff.MovementEffect?
  {
    var pl := PlaceAt(sc, OnSelf(eff));
    var p := pl.tile + eff.positionChange;
    var slots := Put(Put(sc.slots, pl.tile, Empty), p, IndexOf(sc.roster, Whom(sc, eff).ent));
    WithPlace(sc.(slots := slots), OnSelf(eff), Place(Clamp(p, 0, pl.last), pl.last))
  }

  /** A stat modifier: one more modifier, and the maximum health rederived. */
  function Modified(sc: Scene, eff: ActionEffect): Scene
    requires eff.StatModifierEffect?
  {
    var s := StatsAt(sc, OnSelf(eff));
    var s1 := s.(mods := s.mods[eff.stat := ModsIn(s.mods, eff.stat) + [Modifier(eff.value, eff.duration)]]);
    var m := 10 + 5 * StatIn(s1, Constitution);
    WithStats(sc, OnSelf(eff), s1.(maxHealth := m, health := Rescaled(s.maxHealth, s.health, m)))
  }

  /**
   * The effect loop on a scene: each effect, in list order, runs exactly
   * when it is applicable in the scene the earlier ones left.
   */
  function RunAll(sc: Scene, es: seq<ActionEffect>, rng: Rng, cursor: nat): (t: Trace)
    ensures |t.fired| == |es|
    decreases |es|
  {
    if es == [] then Trace(sc, [], cursor)
    else
      var t := RunAll(sc, es[..|es| - 1], rng, cursor);
      var eff := es[|es| - 1];
      if Applicable(t.scene, eff) then
        var o := Fire(t.scene, eff, rng, t.next);
        Trace(o.scene, t.fired + [true], o.next)
      else
        Trace(t.scene, t.fired + [false], t.next)
  }

  /** One more effect of the list: it runs exactly when it is applicable where the prefix left off. */
  lemma RunAllStep(sc: Scene, es: seq<ActionEffect>, rng: Rng, cursor: nat, i: nat)
    requires i < |es|
    ensures var t := RunAll(sc, es[..i], rng, cursor);
            var o := Fire(t.scene, es[i], rng, t.next);
            RunAll(sc, es[..i + 1], rng, cursor) ==
              if Applicable(t.scene, es[i]) then Trace(o.scene, t.fired + [true], o.next)
              else Trace(t.scene, t.fired + [false], t.next)
  {
    assert es[..i + 1][..i] == es[..i];
  }

  /** Running a longer list first runs its prefix. */
  lemma {:induction false} RunAllPrefix(sc: Scene, es: seq<ActionEffect>, rng: Rng, cursor: nat, j: nat)
    requires j <= |es|
    ensures RunAll(sc, es, rng, cursor).fired[..j] == RunAll(sc, es[..j], rng, cursor).fired
    decreases |es|
  {
    if j < |es| {
      RunAllPrefix(sc, es[..|es| - 1], rng, cursor, j);
      assert es[..|es| - 1][..j] == es[..j];
    } else {
      assert es[..j] == es;
    }
  }

  /** Effect `j` ran exactly when it was applicable in the scene effects `0..j-1` left. */
  lemma RunAllFiredExactly(sc: Scene, es: seq<ActionEffect>, rng: Rng, cursor: nat, j: nat)
    requires j < |es|
    ensures RunAll(sc, es, rng, cursor).fired[j] <==> Applicable(RunAll(sc, es[..j], rng, cursor).scene, es[j])
  {
    RunAllPrefix(sc, es, rng, cursor, j + 1);
    assert es[..j + 1][..j] == es[..j];
    assert RunAll(sc, es[..j + 1], rng, cursor).fired[j] == RunAll(sc, es, rng, cursor).fired[..j + 1][j];
  }

  /** When nothing runs, the scene and the draws are untouched. */
  lemma {:induction false} RunAllQuiet(sc: Scene, es: seq<ActionEffect>, rng: Rng, cursor: nat)
    ensures true !in RunAll(sc, es, rng, cursor).fired ==>
              RunAll(sc, es, rng, cursor).scene == sc && RunAll(sc, es, rng, cursor).next == cursor
    decreases |es|
  {
    if es != [] {
      RunAllQuiet(sc, es[..|es| - 1], rng, cursor);
    }
  }

  /** An effect applicable in the starting scene guarantees that some effect runs. */
  lemma {:induction false} ApplicableFires(sc: Scene, es: seq<ActionEffect>, rng: Rng, cursor: nat, i: nat)
    requires i < |es| && Applicable(sc, es[i])
    ensures true in RunAll(sc, es, rng, cursor).fired
    decreases |es|
  {
    var t := RunAll(sc, es, rng, cursor);
    if i < |es| - 1 {
      ApplicableFires(sc, es[..|es| - 1], rng, cursor, i);
      assert t.fired[..|es| - 1] == RunAll(sc, es[..|es| - 1], rng, cursor).fired;
    } else {
      var p := RunAll(sc, es[..|es| - 1], rng, cursor);
      assert t.fired == p.fired + [t.fired[|es| - 1]];
      if true !in p.fired {
        RunAllQuiet(sc, es[..|es| - 1], rng, cursor);
        assert t.fired[|es| - 1];
      }
    }
  }

  /** If nothing ran, no effect of the list was applicable in the starting scene. */
  lemma QuietMeansInapplicable(sc: Scene, es: seq<ActionEffect>, rng: Rng, cursor: nat)
    ensures true !in RunAll(sc, es, rng, cursor).fired ==> forall j :: 0 <= j < |es| ==> !Applicable(sc, es[j])
  {
    forall j | 0 <= j < |es| && Applicable(sc, es[j]) ensures true in RunAll(sc, es, rng, cursor).fired {
      ApplicableFires(sc, es, rng, cursor, j);
    }
  }

  /** The parties, the battlefield's presence, its roster and its size never change. */
  lemma {:induction false} RunAllKeepsCast(sc: Scene, es: seq<ActionEffect>, rng: Rng, cursor: nat)
    ensures var t := RunAll(sc, es, rng, cursor);
            t.scene.user == sc.user && t.scene.target == sc.target && t.scene.field == sc.field &&
            t.scene.roster == sc.roster && |t.scene.slots| == |sc.slots| && t.next >= cursor
    decreases |es|
  {
    if es != [] {
      RunAllKeepsCast(sc, es[..|es| - 1], rng, cursor);
    }
  }

  /** The scene's applicability agrees with `CanApply` on the heap. */
  lemma SnapApplicable(eff: ActionEffect, user: Entity?, target: Entity?, bf: Battlefield?)
    requires bf != null ==> bf.Valid()
    ensures Applicable(Snap(user, target, bf), eff) == CanApply(eff, user, target, bf)
  {
  }

  /** `SnapApplicable` for every effect of a list. */
  lemma SnapApplicableAll(es: seq<ActionEffect>, user: Entity?, target: Entity?, bf: Battlefield?)
    requires bf != null ==> bf.Valid()
    ensures forall j :: 0 <= j < |es| ==> Applicable(Snap(user, target, bf), es[j]) == CanApply(es[j], user, target, bf)
  {
    forall j | 0 <= j < |es| {
      SnapApplicable(es[j], user, target, bf);
    }
  }

  /**
   * Executes one effect.  It reports success exactly when its guard held;
   * when it reports failure nothing changed.
   */
  method ExecuteEffect(eff: ActionEffect, user: Entity?, target: Entity?, bf: Battlefield?, rng: Rng, cursor: nat)
    returns (ran: bool, next: nat)
    requires bf != null ==> bf.Grounded()
    modifies Touched(user, target, bf)
    ensures bf != null ==> bf.Grounded()
    ensures ran == old(Runs(eff, user, target, bf))
    ensures next >= cursor
    ensures !ran ==> next == cursor && unchanged(old(Touched(user, target, bf)))
    ensures ran ==> var o := Fire(old(Snap(user, target, bf)), eff, rng, cursor);
                    Snap(user, target, bf) == o.scene && next == o.next
  {
    match eff {
      case DamageEffect(_, _) =>
        ran, next := FireDamage(eff, user, target, bf, rng, cursor);
      case HealingEffect(_, _) =>
        ran := FireHealing(eff, user, target, bf, rng, cursor);
        next := cursor;
      case MovementEffect(_, _) =>
        ran := FireMovement(eff, user, target, bf, rng, cursor);
        next := cursor;
      case StatModifierEffect(_, _, _, _) =>
        ran := FireModifier(eff, user, target, bf, rng, cursor);
        next := cursor;
    }
  }

  /** `ExecuteDamage` seen on the scene: the outcome `Fire` describes. */
  method FireDamage(eff: ActionEffect, user: Entity?, target: Entity?, bf: Battlefield?, rng: Rng, cursor: nat)
    returns (ran: bool, next: nat)
    requires eff.DamageEffect? && (bf != null ==> bf.Grounded())
    modifies StatsOf(target)
    ensures bf != null ==> bf.Grounded()
    ensures ran == old(Runs(eff, user, target, bf))
    ensures !ran ==> next == cursor && unchanged(StatsOf(target))
    ensures ran ==> Snap(user, target, bf) == Struck(old(Snap(user, target, bf)), eff, rng, cursor) && next == cursor + 2
  {
    if user != null && user.stats != null {
      StatInAgrees(user.stats, if eff.isPhysical then Strength else Intellect);
    }
    if target != null && target.stats != null {
      StatInAgrees(target.stats, Defense);
    }
    ghost var s0 := Snap(user, target, bf);
    ran, next := ExecuteDamage(eff.damage, eff.isPhysical, user, target, rng, cursor);
    if ran {
      ghost var t1 := StatsValue(target.stats);
      assert t1 == s0.targetStats.(health := target.stats.currentHealth);
      StatsSnap(user, target, bf, s0, false, t1);
    }
  }

  /** `ExecuteHealing` seen on the scene: the outcome `Fire` describes. */
  method FireHealing(eff: ActionEffect, user: Entity?, target: Entity?, bf: Battlefield?, rng: Rng, cursor: nat)
    returns (ran: bool)
    requires eff.HealingEffect? && (bf != null ==> bf.Grounded())
    modifies StatsOf(SubjectOf(eff, user, target))
    ensures bf != null ==> bf.Grounded()
    ensures ran == old(Runs(eff, user, target, bf))
    ensures !ran ==> unchanged(StatsOf(SubjectOf(eff, user, target)))
    ensures ran ==> Snap(user, target, bf) == Healed(old(Snap(user, target, bf)), eff)
  {
    var who := SubjectOf(eff, user, target);
    ghost var s0 := Snap(user, target, bf);
    ran := ExecuteHealing(eff.amount, who);
    if ran {
      StatsSnap(user, target, bf, s0, OnSelf(eff), StatsValue(who.stats));
    }
  }

  /** `ExecuteMovement` seen on the scene: the outcome `Fire` describes. */
  method FireMovement(eff: ActionEffect, user: Entity?, target: Entity?, bf: Battlefield?, rng: Rng, cursor: nat)
    returns (ran: bool)
    requires eff.MovementEffect? && (bf != null ==> bf.Grounded())
    modifies MoveFrame(SubjectOf(eff, user, target), bf)
    ensures bf != null ==> bf.Grounded()
    ensures ran == old(Runs(eff, user, target, bf))
    ensures !ran ==> unchanged(MoveFrame(SubjectOf(eff, user, target), bf))
    ensures ran ==> Snap(user, target, bf) == Moved(old(Snap(user, target, bf)), eff)
  {
    var who := SubjectOf(eff, user, target);
    ghost var s0 := Snap(user, target, bf);
    ghost var runs := Runs(eff, user, target, bf);
    assert runs <==> who != null && bf != null && who.position != null &&
                     bf.Movable(who, who.position.position + eff.positionChange);
    ghost var place := PlaceAt(s0, OnSelf(eff));
    if who != null && bf != null && who.position != null && who in bf.entities {
      assert bf.entities[IndexOf(bf.entities, who)] == who;
      assert IsValidPosition(place.tile);
    }
    ran := ExecuteMovement(eff.positionChange, who, bf);
    assert ran == runs;
    if ran {
      var p := place.tile + eff.positionChange;
      assert bf.entities == s0.roster && who == Whom(s0, eff).ent;
      assert bf.positions[..] == s0.slots[place.tile := Empty][p := IndexOf(s0.roster, who)];
      ghost var v := Place(Clamp(p, 0, place.last), place.last);
      ghost var up := if user != null && user.position == who.position then v else s0.userPlace;
      ghost var tp := if target != null && target.position == who.position then v else s0.targetPlace;
      assert PlaceValue(s0.user.pos) == up && PlaceValue(s0.target.pos) == tp;
      assert StatsValue(s0.user.stats) == s0.userStats && StatsValue(s0.target.stats) == s0.targetStats;
      assert Snap(user, target, bf) ==
             Scene(s0.user, s0.target, true, s0.roster, bf.positions[..], s0.userStats, s0.targetStats, up, tp);
      MovementFired(s0, eff, bf.positions[..], v);
    }
  }

  /** The slot table and component state a move leaves, as `Fire` computes them. */
  lemma MovementFired(sc: Scene, eff: ActionEffect, slots: seq<int>, v: Place)
    requires eff.MovementEffect? && |sc.slots| == MaxTiles
    requires var pl := PlaceAt(sc, OnSelf(eff));
             var p := pl.tile + eff.positionChange;
             IsValidPosition(pl.tile) && IsValidPosition(p) &&
             slots == sc.slots[pl.tile := Empty][p := IndexOf(sc.roster, Whom(sc, eff).ent)] &&
             v == Place(Clamp(p, 0, pl.last), pl.last)
    ensures var c := Whom(sc, eff).pos;
            Moved(sc, eff) ==
            sc.(slots := slots,
                userPlace := if c != null && sc.user.pos == c then v else sc.userPlace,
                targetPlace := if c != null && sc.target.pos == c then v else sc.targetPlace)
  {
  }

  /** `ExecuteStatModifier` seen on the scene: the outcome `Fire` describes. */
  method FireModifier(eff: ActionEffect, user: Entity?, target: Entity?, bf: Battlefield?, rng: Rng, cursor: nat)
    returns (ran: bool)
    requires eff.StatModifierEffect? && (bf != null ==> bf.Valid())
    modifies StatsOf(SubjectOf(eff, user, target))
    ensures ran == old(Runs(eff, user, target, bf))
    ensures !ran ==> unchanged(StatsOf(SubjectOf(eff, user, target)))
    ensures ran ==> Snap(user, target, bf) == Modified(old(Snap(user, target, bf)), eff)
  {
    var who := SubjectOf(eff, user, target);
    ghost var s0 := Snap(user, target, bf);
    ran := ExecuteStatModifier(eff.stat, eff.value, eff.duration, who);
    if ran {
      StatInAgrees(who.stats, Constitution);
      ModifierFired(s0, eff, StatsValue(who.stats));
      StatsSnap(user, target, bf, s0, OnSelf(eff), StatsValue(who.stats));
    }
  }

  /** The scene once one stats component holds `v` and nothing else changed. */
  lemma StatsSnap(user: Entity?, target: Entity?, bf: Battlefield?, s0: Scene, self: bool, v: StatsState)
    requires s0.user == PartyOf(user) && s0.target == PartyOf(target) && s0.field == (bf != null)
    requires s0.roster == (if bf != null then bf.entities else [])
    requires s0.slots == (if bf != null then bf.positions[..] else [])
    requires s0.userPlace == PlaceValue(s0.user.pos) && s0.targetPlace == PlaceValue(s0.target.pos)
    requires var c := if self then s0.user.stats else s0.target.stats;
             c != null && StatsValue(c) == v &&
             (s0.user.stats != c ==> StatsValue(s0.user.stats) == s0.userStats) &&
             (s0.target.stats != c ==> StatsValue(s0.target.stats) == s0.targetStats)
    ensures Snap(user, target, bf) == WithStats(s0, self, v)
  {
  }

  /** The stats state a modifier leaves, as `Fire` computes it. */
  lemma ModifierFired(sc: Scene, eff: ActionEffect, v: StatsState)
    requires eff.StatModifierEffect?
    requires var s := StatsAt(sc, OnSelf(eff));
             v.base == s.base && v.mods == s.mods[eff.stat := ModsIn(s.mods, eff.stat) + [Modifier(eff.value, eff.duration)]] &&
             v.maxHealth == 10 + 5 * StatIn(v, Constitution) && v.health == Rescaled(s.maxHealth, s.health, v.maxHealth)
    ensures Modified(sc, eff) == WithStats(sc, OnSelf(eff), v)
  {
  }

  /** Whether `keys` lists every key of `props` exactly once: one possible iteration order of the map. */
  ghost predicate IsKeyOrder(keys: seq<string>, props: map<string, int>)
  {
    (forall k :: k in props <==> k in keys) &&
    (forall i, j :: 0 <= i < j < |keys| ==> keys[i] != keys[j])
  }

  /** A property's value; an absent key reads as 0. */
  function PropertyOf(props: map<string, int>, key: string): int
  {
    if key in props then props[key] else 0
  }

  /** Writing a property and reading it back yields the value written; other keys are unaffected. */
  lemma PropertyRoundTrip(props: map<string, int>, key: string, value: int, other: string)
    ensures PropertyOf(props[key := value], key) == value
    ensures other != key ==> PropertyOf(props[key := value], other) == PropertyOf(props, other)
    ensures PropertyOf(map[], other) == 0
  {
  }

  /** The spelling of a stat in a `mod_<STAT>` property key. */
  function StatKeyName(t: StatType): string
  {
    match t
    case Strength => "STRENGTH"
    case Intellect => "INTELLECT"
    case Speed => "SPEED"
    case Dexterity => "DEXTERITY"
    case Constitution => "CONSTITUTION"
    case Defense => "DEFENSE"
    case Luck => "LUCK"
  }

  /** The stat a key suffix names, if any. */
  function StatFromKey(s: string): (r: Option<StatType>)
    ensures r.Some? ==> StatKeyName(r.value) == s
  {
    if s == "STRENGTH" then Some(Strength)
    else if s == "INTELLECT" then Some(Intellect)
    else if s == "SPEED" then Some(Speed)
    else if s == "DEXTERITY" then Some(Dexterity)
    else if s == "CONSTITUTION" then Some(Constitution)
    else if s == "DEFENSE" then Some(Defense)
    else if s == "LUCK" then Some(Luck)
    else None
  }

  /** The stat a `mod_<STAT>` property key modifies; other keys name none. */
  function ParseModKey(key: string): (r: Option<StatType>)
    ensures r.Some? ==> key == "mod_" + StatKeyName(r.value)
  {
    if |key| >= 4 && key[..4] == "mod_" then
      assert key == key[..4] + key[4..];
      StatFromKey(key[4..])
    else None
  }

  /** Every stat has exactly one key, and that key parses back to it. */
  lemma ModKeyRoundTrip(t: StatType)
    ensures ParseModKey("mod_" + StatKeyName(t)) == Some(t)
  {
    var k := "mod_" + StatKeyName(t);
    assert k[..4] == "mod_";
    assert k[4..] == StatKeyName(t);
  }

  /** The duration of synthesised stat modifiers: the `duration` property, 3 when it is not positive. */
  function ModDuration(props: map<string, int>): (d: int)
    ensures d >= 1
    ensures PropertyOf(props, "duration") > 0 ==> d == PropertyOf(props, "duration")
  {
    var d := PropertyOf(props, "duration");
    if d <= 0 then 3 else d
  }

  /**
   * The stat modifier synthesised for one property key.  In a compound
   * action a positive modifier goes to the user and any other to the target.
   */
  function ModEffectFor(props: map<string, int>, key: string, compound: bool): seq<ActionEffect>
  {
    match ParseModKey(key)
    case None => []
    case Some(t) =>
      var v := PropertyOf(props, key);
      [StatModifierEffect(t, v, ModDuration(props), if compound && v > 0 then OnUser else OnTarget)]
  }

  /** The stat modifiers synthesised for the keys, in key order. */
  function ModEffects(props: map<string, int>, keys: seq<string>, compound: bool): seq<ActionEffect>
    decreases |keys|
  {
    if keys == [] then []
    else ModEffects(props, keys[..|keys| - 1], compound) + ModEffectFor(props, keys[|keys| - 1], compound)
  }

  /** Describes one synthesised stat modifier: its key, value, duration and subject. */
  predicate ModEffectFrom(props: map<string, int>, keys: seq<string>, compound: bool, e: ActionEffect)
  {
    e.StatModifierEffect? && "mod_" + StatKeyName(e.stat) in keys &&
    e.value == PropertyOf(props, "mod_" + StatKeyName(e.stat)) &&
    e.duration == ModDuration(props) &&
    (e.subject == OnUser <==> compound && e.value > 0)
  }

  /** Every synthesised stat modifier comes from a `mod_<STAT>` key and carries that key's value. */
  lemma {:induction false} ModEffectsSound(props: map<string, int>, keys: seq<string>, compound: bool)
    ensures forall i :: 0 <= i < |ModEffects(props, keys, compound)| ==>
              ModEffectFrom(props, keys, compound, ModEffects(props, keys, compound)[i])
    decreases |keys|
  {
    if keys != [] {
      var init := keys[..|keys| - 1];
      var es := ModEffects(props, keys, compound);
      ModEffectsSound(props, init, compound);
      forall i | 0 <= i < |es| ensures ModEffectFrom(props, keys, compound, es[i]) {
        var prev := ModEffects(props, init, compound);
        if i < |prev| {
          assert es[i] == prev[i];
          assert ModEffectFrom(props, init, compound, prev[i]);
          var w := "mod_" + StatKeyName(es[i].stat);
          assert w in init;
          var j :| 0 <= j < |init| && init[j] == w;
          assert keys[j] == w;
        } else {
          var k := keys[|keys| - 1];
          assert es[i] == ModEffectFor(props, k, compound)[0];
        }
      }
    }
  }

  /** Every `mod_<STAT>` key yields a modifier of its stat carrying its value. */
  lemma {:induction false} ModEffectsComplete(props: map<string, int>, keys: seq<string>, compound: bool, t: StatType)
    requires "mod_" + StatKeyName(t) in keys
    ensures exists i :: 0 <= i < |ModEffects(props, keys, compound)| &&
              ModEffects(props, keys, compound)[i].StatModifierEffect? &&
              ModEffects(props, keys, compound)[i].stat == t &&
              ModEffects(props, keys, compound)[i].value == PropertyOf(props, "mod_" + StatKeyName(t))
    decreases |keys|
  {
    var init := keys[..|keys| - 1];
    var k := keys[|keys| - 1];
    var prev := ModEffects(props, init, compound);
    var es := ModEffects(props, keys, compound);
    if k == "mod_" + StatKeyName(t) {
      ModKeyRoundTrip(t);
      assert es[|prev|] == ModEffectFor(props, k, compound)[0];
    } else {
      assert "mod_" + StatKeyName(t) in init by {
        var j :| 0 <= j < |keys| && keys[j] == "mod_" + StatKeyName(t);
        assert j < |keys| - 1;
        assert init[j] == keys[j];
      }
      ModEffectsComplete(props, init, compound, t);
      var i :| 0 <= i < |prev| && prev[i].StatModifierEffect? && prev[i].stat == t &&
               prev[i].value == PropertyOf(props, "mod_" + StatKeyName(t));
      assert es[i] == prev[i];
    }
  }

  /** Over distinct keys, no stat is modified twice. */
  lemma {:induction false} ModEffectsDistinctStats(props: map<string, int>, keys: seq<string>, compound: bool)
    requires forall i, j :: 0 <= i < j < |keys| ==> keys[i] != keys[j]
    ensures forall i, j :: 0 <= i < j < |ModEffects(props, keys, compound)| ==>
              ModEffects(props, keys, compound)[i].StatModifierEffect? &&
              ModEffects(props, keys, compound)[j].StatModifierEffect? &&
              ModEffects(props, keys, compound)[i].stat != ModEffects(props, keys, compound)[j].stat
    decreases |keys|
  {
    if keys != [] {
      var init := keys[..|keys| - 1];
      var k := keys[|keys| - 1];
      var prev := ModEffects(props, init, compound);
      var last := ModEffectFor(props, k, compound);
      var es := ModEffects(props, keys, compound);
      assert es == prev + last;
      assert |last| <= 1;
      ModEffectsDistinctStats(props, init, compound);
      ModEffectsSound(props, init, compound);
      forall i, j | 0 <= i < j < |es|
        ensures es[i].StatModifierEffect? && es[j].StatModifierEffect? && es[i].stat != es[j].stat
      {
        if j < |prev| {
          assert es[i] == prev[i] && es[j] == prev[j];
        } else {
          assert es[j] == last[0] && es[i] == prev[i];
          var t := ParseModKey(k).value;
          assert last[0].stat == t && k == "mod_" + StatKeyName(t);
          assert ModEffectFrom(props, init, compound, prev[i]);
          var w := "mod_" + StatKeyName(prev[i].stat);
          var m :| 0 <= m < |init| && init[m] == w;
          assert keys[m] == w && keys[m] != k;
        }
      }
      assert forall i, j :: 0 <= i < j < |es| ==>
        es[i].StatModifierEffect? && es[j].StatModifierEffect? && es[i].stat != es[j].stat;
    } else {
      assert ModEffects(props, keys, compound) == [];
    }
  }

  /** The effects an action of the given kind synthesises from its properties, keys visited in `keys` order. */
  function Synthesised(kind: ActionType, props: map<string, int>, keys: seq<string>): seq<ActionEffect>
  {
    var damage := PropertyOf(props, "damage");
    var physical := PropertyOf(props, "is_physical") > 0;
    var change := PropertyOf(props, "position_change");
    var heal := PropertyOf(props, "heal_amount");
    match kind
    case Attack => if damage > 0 then [DamageEffect(damage, physical)] else []
    case Heal => if damage > 0 then [HealingEffect(damage, OnTarget)] else []
    case Movement => if change != 0 then [MovementEffect(change, OnTarget)] else []
    case Buff => ModEffects(props, keys, false)
    case Debuff => ModEffects(props, keys, false)
    case Compound =>
      (if damage > 0 then [DamageEffect(damage, physical)] else []) +
      (if heal > 0 then [HealingEffect(heal, OnUser)] else []) +
      (if change != 0 then [MovementEffect(change, OnUser)] else []) +
      ModEffects(props, keys, true)
    case Special => []
  }

  /** The shape each synthesised effect has, by action kind. */
  predicate Fits(kind: ActionType, props: map<string, int>, keys: seq<string>, e: ActionEffect)
  {
    match kind
    case Attack => e == DamageEffect(PropertyOf(props, "damage"), PropertyOf(props, "is_physical") > 0) && e.damage > 0
    case Heal => e == HealingEffect(PropertyOf(props, "damage"), OnTarget) && e.amount > 0
    case Movement => e == MovementEffect(PropertyOf(props, "position_change"), OnTarget) && e.positionChange != 0
    case Buff => ModEffectFrom(props, keys, false, e)
    case Debuff => ModEffectFrom(props, keys, false, e)
    case Compound =>
      (e.DamageEffect? && e.damage == PropertyOf(props, "damage") > 0) ||
      (e == HealingEffect(PropertyOf(props, "heal_amount"), OnUser) && e.amount > 0) ||
      (e == MovementEffect(PropertyOf(props, "position_change"), OnUser) && e.positionChange != 0) ||
      ModEffectFrom(props, keys, true, e)
    case Special => false
  }

  /**
   * Synthesis yields only effects of the action's kind: a special action
   * none, attack/heal/movement at most one, and every stat modifier
   * traced to its key; a compound action's damage, if any, comes first.
   */
  lemma SynthesisedFits(kind: ActionType, props: map<string, int>, keys: seq<string>)
    ensures forall i :: 0 <= i < |Synthesised(kind, props, keys)| ==> Fits(kind, props, keys, Synthesised(kind, props, keys)[i])
    ensures kind == Special ==> Synthesised(kind, props, keys) == []
    ensures kind in {Attack, Heal, Movement} ==> |Synthesised(kind, props, keys)| <= 1
    ensures kind == Compound ==>
              forall i :: 0 < i < |Synthesised(kind, props, keys)| ==> !Synthesised(kind, props, keys)[i].DamageEffect?
  {
    if kind == Buff || kind == Debuff {
      ModEffectsSound(props, keys, false);
    } else if kind == Compound {
      CompoundFits(props, keys);
    }
  }

  /** A compound action's synthesised effects: damage, self-heal, self-move, then its stat modifiers. */
  lemma CompoundFits(props: map<string, int>, keys: seq<string>)
    ensures Leading(props, keys, Synthesised(Compound, props, keys))
  {
    var heal := PropertyOf(props, "heal_amount");
    var change := PropertyOf(props, "position_change");
    var damage := PropertyOf(props, "damage");
    var strike := if damage > 0 then [DamageEffect(damage, PropertyOf(props, "is_physical") > 0)] else [];
    var healing := if heal > 0 then [HealingEffect(heal, OnUser)] else [];
    var moving := if change != 0 then [MovementEffect(change, OnUser)] else [];
    var mods := ModEffects(props, keys, true);
    ModEffectsSound(props, keys, true);
    assert Leading(props, keys, strike);
    LeadingConcat(props, keys, strike, healing);
    LeadingConcat(props, keys, strike + healing, moving);
    LeadingConcat(props, keys, strike + healing + moving, mods);
  }

  /** Effects that fit a compound action, of which only the first may be damage. */
  predicate Leading(props: map<string, int>, keys: seq<string>, s: seq<ActionEffect>)
  {
    forall i :: 0 <= i < |s| ==> Fits(Compound, props, keys, s[i]) && (i > 0 ==> !s[i].DamageEffect?)
  }

  /** Appending fitting effects that are not damage keeps damage, if any, in front. */
  lemma LeadingConcat(props: map<string, int>, keys: seq<string>, a: seq<ActionEffect>, b: seq<ActionEffect>)
    requires Leading(props, keys, a)
    requires forall i :: 0 <= i < |b| ==> Fits(Compound, props, keys, b[i]) && !b[i].DamageEffect?
    ensures Leading(props, keys, a + b)
  {
    forall i | 0 <= i < |a + b| ensures Fits(Compound, props, keys, (a + b)[i]) && (i > 0 ==> !(a + b)[i].DamageEffect?) {
      if i >= |a| {
        assert (a + b)[i] == b[i - |a|];
      }
    }
  }

  /** One decrement of a cooldown counter: only a positive counter moves. */
  function CooldownStep(c: int): int
  {
    if c > 0 then c - 1 else c
  }

  /** The counter after `n` decrements. */
  function CooldownAfter(c: int, n: nat): int
  {
    if n == 0 then c else CooldownStep(CooldownAfter(c, n - 1))
  }

  /** Decrements count a positive counter down to zero and leave a non-positive one alone. */
  lemma {:induction false} CooldownAfterClosedForm(c: int, n: nat)
    ensures CooldownAfter(c, n) == if c <= 0 then c else Max(0, c - n)
  {
    if n > 0 {
      CooldownAfterClosedForm(c, n - 1);
    }
  }

  /** A cooldown of `c >= 0` turns is still running after `n` decrements exactly when `n < c`. */
  lemma CooldownLastsExactly(c: int, n: nat)
    requires c >= 0
    ensures CooldownAfter(c, n) > 0 <==> n < c
    ensures CooldownAfter(c, n) >= 0
  {
    CooldownAfterClosedForm(c, n);
  }

  /** A roll misses when the accuracy is below 100 and the roll (1..100) exceeds it. */
  predicate Missed(accuracy: int, draw: nat)
  {
    accuracy < 100 && Percent(draw) > accuracy
  }

  class Action {
    const id: string
    const name: string
    const kind: ActionType
    /** Hit chance in percent. */
    var accuracy: int
    /** Largest tile distance to the target. */
    var range: int
    /** Turns the action rests after use. */
    var cooldown: int
    /** Turns of rest left. */
    var currentCooldown: int
    var properties: map<string, int>
    var effects: seq<ActionEffect>
    /** Whether a custom callback is installed; its body is opaque to the model. */
    var hasCallback: bool

    /** A fresh action: accuracy 100, range 1, no cooldown, no properties or effects. */
    constructor(id: string, name: string, kind: ActionType)
      ensures this.id == id && this.name == name && this.kind == kind
      ensures accuracy == 100 && range == 1 && cooldown == 0 && currentCooldown == 0
      ensures properties == map[] && effects == [] && !hasCallback
    {
      this.id := id;
      this.name := name;
      this.kind := kind;
      accuracy := 100;
      range := 1;
      cooldown := 0;
      currentCooldown := 0;
      properties := map[];
      effects := [];
      hasCallback := false;
    }

    method SetAccuracy(value: int)
      modifies this`accuracy
      ensures accuracy == value
    {
      accuracy := value;
    }

    method SetRange(value: int)
      modifies this`range
      ensures range == value
    {
      range := value;
    }

    method SetCooldown(value: int)
      modifies this`cooldown
      ensures cooldown == value
    {
      cooldown := value;
    }

    /** Installs (`present`) or removes the custom callback. */
    method SetEffectCallback(present: bool)
      modifies this`hasCallback
      ensures hasCallback == present
    {
      hasCallback := present;
    }

    predicate IsOnCooldown()
      reads this
    {
      currentCooldown > 0
    }

    method StartCooldown()
      modifies this`currentCooldown
      ensures currentCooldown == cooldown
      ensures IsOnCooldown() <==> cooldown > 0
    {
      currentCooldown := cooldown;
    }

    /** One turn of rest passes; the counter never drops below zero from a non-negative value. */
    method DecreaseCooldown()
      modifies this`currentCooldown
      ensures currentCooldown == CooldownStep(old(currentCooldown))
      ensures old(currentCooldown) >= 0 ==> currentCooldown >= 0
      ensures old(IsOnCooldown()) ==> currentCooldown == old(currentCooldown) - 1
      ensures !old(IsOnCooldown()) ==> currentCooldown == old(currentCooldown)
    {
      if currentCooldown > 0 {
        currentCooldown := currentCooldown - 1;
      }
    }

    function GetProperty(key: string): (v: int)
      reads this
      ensures key !in properties ==> v == 0
    {
      PropertyOf(properties, key)
    }

    method SetProperty(key: string, value: int)
      modifies this`properties
      ensures properties == old(properties)[key := value]
      ensures GetProperty(key) == value
      ensures forall k :: k != key ==> GetProperty(k) == old(GetProperty(k))
    {
      properties := properties[key := value];
    }

    /** The `damage` property. */
    function GetDamage(): (v: int)
      reads this
      ensures v == PropertyOf(properties, "damage")
    {
      GetProperty("damage")
    }

    method SetDamage(value: int)
      modifies this`properties
      ensures properties == old(properties)["damage" := value]
      ensures GetDamage() == value
    {
      SetProperty("damage", value);
    }

    /** Appends an effect after those already listed. */
    method AddEffect(eff: ActionEffect)
      modifies this`effects
      ensures effects == old(effects) + [eff]
    {
      effects := effects + [eff];
    }

    /** Replaces the effect list by the one the kind and properties call for, visiting keys in `keys` order. */
    method CreateEffectsFromProperties(keys: seq<string>)
      requires IsKeyOrder(keys, properties)
      modifies this`effects
      ensures effects == Synthesised(kind, properties, keys)
    {
      effects := [];
      var damage := GetProperty("damage");
      var physical := GetProperty("is_physical") > 0;
      var change := GetProperty("position_change");
      match kind {
        case Attack =>
          if damage > 0 {
            effects := [DamageEffect(damage, physical)];
          }
        case Heal =>
          if damage > 0 {
            effects := [HealingEffect(damage, OnTarget)];
          }
        case Movement =>
          if change != 0 {
            effects := [MovementEffect(change, OnTarget)];
          }
        case Buff =>
          AppendModEffects(keys, false);
        case Debuff =>
          AppendModEffects(keys, false);
        case Compound =>
          var heal := GetProperty("heal_amount");
          var withDamage := if damage > 0 then [DamageEffect(damage, physical)] else [];
          var withHeal := withDamage + if heal > 0 then [HealingEffect(heal, OnUser)] else [];
          effects := withHeal + if change != 0 then [MovementEffect(change, OnUser)] else [];
          AppendModEffects(keys, true);
        case Special =>
      }
    }

    /** Appends one stat modifier per `mod_<STAT>` key, in key order. */
    method AppendModEffects(keys: seq<string>, compound: bool)
      modifies this`effects
      ensures effects == old(effects) + ModEffects(properties, keys, compound)
    {
      var i := 0;
      while i < |keys|
        invariant 0 <= i <= |keys|
        invariant effects == old(effects) + ModEffects(properties, keys[..i], compound)
      {
        var key := keys[i];
        var t := ParseModKey(key);
        if t.Some? {
          var value := GetProperty(key);
          var duration := GetProperty("duration");
          if duration <= 0 {
            duration := 3;
          }
          var subject := if compound && value > 0 then OnUser else OnTarget;
          effects := effects + [StatModifierEffect(t.value, value, duration, subject)];
        }
        assert keys[..i + 1][..i] == keys[..i];
        i := i + 1;
      }
      assert keys[..i] == keys;
    }

    /**
     * Whether the action may be used: off cooldown, both parties present
     * with stats, within range when a battlefield is given and the range
     * is positive, the targeting rules of its kind respected, and, when
     * it lists effects, at least one of them applicable.
     */
    predicate Usable(user: Entity?, target: Entity?, bf: Battlefield?)
      requires bf != null ==> bf.Valid()
      reads this, bf, if bf != null then {bf.positions} else {}, Footprint(user, target, bf)
    {
      !IsOnCooldown() &&
      user != null && target != null && user.stats != null && target.stats != null &&
      (bf != null && range > 0 ==>
         user.position != null && target.position != null &&
         Abs(user.position.position - target.position.position) <= range) &&
      !((kind == Buff || kind == Heal) && user != target && GetProperty("self_only") > 0) &&
      !((kind == Attack || kind == Debuff) && user == target && GetProperty("can_target_self") <= 0) &&
      (effects != [] ==> exists i :: 0 <= i < |effects| && CanApply(effects[i], user, target, bf))
    }

    /** Within range, as the position components measure it. */
    lemma UsableWithinRange(user: Entity?, target: Entity?, bf: Battlefield?)
      requires bf != null ==> bf.Valid()
      requires Usable(user, target, bf) && bf != null && range > 0
      ensures user.position.IsWithinRange(target.position, range)
      ensures user != null && user.stats != null && !IsOnCooldown()
    {
    }

    /** The usability gate, scanning the effect list for an applicable effect. */
    method CanUse(user: Entity?, target: Entity?, bf: Battlefield?) returns (ok: bool)
      requires bf != null ==> bf.Valid()
      ensures ok == Usable(user, target, bf)
    {
      if IsOnCooldown() {
        return false;
      }
      if user == null || target == null {
        return false;
      }
      if user.stats == null || target.stats == null {
        return false;
      }
      if bf != null && range > 0 {
        if user.position == null || target.position == null {
          return false;
        }
        var distance := Abs(user.position.position - target.position.position);
        if distance > range {
          return false;
        }
      }
      var isSelfTargeted := user == target;
      if (kind == Buff || kind == Heal) && !isSelfTargeted {
        if GetProperty("self_only") > 0 {
          return false;
        }
      }
      if (kind == Attack || kind == Debuff) && isSelfTargeted {
        if GetProperty("can_target_self") <= 0 {
          return false;
        }
      }
      if effects == [] {
        return true;
      }
      var i := 0;
      while i < |effects|
        invariant 0 <= i <= |effects|
        invariant forall j :: 0 <= j < i ==> !CanApply(effects[j], user, target, bf)
      {
        if CanApply(effects[i], user, target, bf) {
          return true;
        }
        i := i + 1;
      }
      return false;
    }

    /** Whether this action moves its user, so that a refusal reports on the user's tile. */
    predicate MovesUser()
      reads this
    {
      kind == Movement || (kind == Compound && GetProperty("position_change") != 0)
    }

    /**
     * What resolving a hit leaves behind: the effect list, synthesised if
     * it was empty; the cooldown, started exactly when something fired; a
     * callback or a listed effect always fires, and nothing fires without
     * one of them.
     */
    twostate predicate Resolved(keys: seq<string>, fired: bool)
      reads this
    {
      effects == (if old(effects) == [] then Synthesised(kind, properties, keys) else old(effects)) &&
      currentCooldown == (if fired then cooldown else old(currentCooldown)) &&
      (hasCallback ==> fired) &&
      (old(effects) != [] ==> fired) &&
      (fired ==> hasCallback || effects != [])
    }

    /**
     * Uses the action.  An unusable action reports failure and changes
     * nothing.  A miss starts the cooldown and runs nothing.  On a hit the
     * effect list is synthesised if empty, every applicable effect runs in
     * list order, and the cooldown starts exactly when something fired
     * (an effect or the callback).  A usable action that lists effects
     * always fires on a hit: the effect the usability check found
     * applicable is reached in an unchanged state.
     */
    method Execute(user: Entity?, target: Entity?, bf: Battlefield?, keys: seq<string>, rng: Rng, cursor: nat)
      returns (fired: bool, next: nat, ghost usable: bool)
      requires bf != null ==> bf.Grounded()
      requires IsKeyOrder(keys, properties)
      requires MovesUser() && bf != null && !Usable(user, target, bf) ==> user != null && user.position != null
      modifies this`effects, this`currentCooldown, Touched(user, target, bf)
      ensures usable == old(Usable(user, target, bf))
      ensures bf != null ==> bf.Grounded()
      ensures next >= cursor
      ensures fired ==> usable && !Missed(accuracy, rng(cursor))
      ensures !usable ==> next == cursor && effects == old(effects) && currentCooldown == old(currentCooldown)
      ensures usable && Missed(accuracy, rng(cursor)) ==>
                next == cursor + 1 && effects == old(effects) && currentCooldown == cooldown
      ensures usable && !Missed(accuracy, rng(cursor)) ==> Resolved(keys, fired)
      ensures !fired ==> unchanged(old(Touched(user, target, bf)))
      ensures usable && !Missed(accuracy, rng(cursor)) ==>
                var t := RunAll(old(Snap(user, target, bf)), effects, rng, if accuracy < 100 then cursor + 1 else cursor);
                Snap(user, target, bf) == t.scene && next == t.next && (fired <==> hasCallback || true in t.fired)
    {
      var ok := Usable(user, target, bf);
      usable := ok;
      next := cursor;
      if !ok {
        return false, next, usable;
      }
      if accuracy < 100 {
        var roll := Percent(rng(next));
        next := next + 1;
        if roll > accuracy {
          StartCooldown();
          return false, next, usable;
        }
      }
      fired, next := Resolve(user, target, bf, keys, rng, next);
    }

    /**
     * The hit half of `Execute`: synthesises the effects if none are
     * listed, runs the applicable ones, counts an installed callback as
     * firing, and starts the cooldown if anything fired.
     */
    method Resolve(user: Entity?, target: Entity?, bf: Battlefield?, keys: seq<string>, rng: Rng, cursor: nat)
      returns (fired: bool, next: nat)
      requires bf != null ==> bf.Grounded()
      requires IsKeyOrder(keys, properties)
      requires Usable(user, target, bf)
      modifies this`effects, this`currentCooldown, Touched(user, target, bf)
      ensures bf != null ==> bf.Grounded()
      ensures next >= cursor
      ensures Resolved(keys, fired)
      ensures !fired ==> unchanged(old(Touched(user, target, bf)))
      ensures var t := RunAll(old(Snap(user, target, bf)), effects, rng, cursor);
              Snap(user, target, bf) == t.scene && next == t.next && (fired <==> hasCallback || true in t.fired)
    {
      assert this !in Touched(user, target, bf);
      if effects == [] {
        CreateEffectsFromProperties(keys);
      }
      assert unchanged(old(Touched(user, target, bf)));
      fired, next := Apply(user, target, bf, rng, cursor);
    }

    /**
     * Runs the listed effects, counts an installed callback as firing and
     * starts the cooldown if anything fired.  Without a callback, firing
     * means that some effect was applicable when it was reached.
     */
    method Apply(user: Entity?, target: Entity?, bf: Battlefield?, rng: Rng, cursor: nat)
      returns (fired: bool, next: nat)
      requires bf != null ==> bf.Grounded()
      modifies this`currentCooldown, Touched(user, target, bf)
      ensures bf != null ==> bf.Grounded()
      ensures next >= cursor
      ensures currentCooldown == if fired then cooldown else old(currentCooldown)
      ensures hasCallback ==> fired
      ensures fired ==> hasCallback || effects != []
      ensures !fired ==> unchanged(old(Touched(user, target, bf)))
      ensures !fired ==> forall j :: 0 <= j < |effects| ==> !old(CanApply(effects[j], user, target, bf))
      ensures var t := RunAll(old(Snap(user, target, bf)), effects, rng, cursor);
              Snap(user, target, bf) == t.scene && next == t.next && (fired <==> hasCallback || true in t.fired)
    {
      assert this !in Touched(user, target, bf);
      var any;
      any, next := RunEffects(user, target, bf, rng, cursor);
      if hasCallback {
        any := true;
      }
      if any {
        StartCooldown();
      }
      fired := any;
    }

    /**
     * Runs each listed effect whose applicability check holds when it is
     * reached; reports whether any ran.  If none ran nothing changed, so
     * every effect was inapplicable in the starting state.
     */
    method RunEffects(user: Entity?, target: Entity?, bf: Battlefield?, rng: Rng, cursor: nat)
      returns (any: bool, next: nat)
      requires bf != null ==> bf.Grounded()
      modifies Touched(user, target, bf)
      ensures bf != null ==> bf.Grounded()
      ensures next >= cursor
      ensures !any ==> unchanged(old(Touched(user, target, bf)))
      ensures !any ==> forall j :: 0 <= j < |old(effects)| ==> !old(CanApply(effects[j], user, target, bf))
      ensures any ==> old(effects) != []
      ensures var t := RunAll(old(Snap(user, target, bf)), old(effects), rng, cursor);
              Snap(user, target, bf) == t.scene && next == t.next && (any <==> true in t.fired)
    {
      next := cursor;
      any := false;
      var es := effects;
      ghost var s0 := Snap(user, target, bf);
      ghost var fr := Touched(user, target, bf);
      SnapApplicableAll(es, user, target, bf);
      var i := 0;
      while i < |es|
        invariant 0 <= i <= |es|
        invariant bf != null ==> bf.Grounded()
        invariant next >= cursor
        invariant Touched(user, target, bf) == fr
        invariant !any ==> unchanged(fr)
        invariant any ==> es != []
        invariant var t := RunAll(s0, es[..i], rng, cursor);
                  Snap(user, target, bf) == t.scene && next == t.next && (any <==> true in t.fired)
      {
        any, next := RunNext(s0, es, i, user, target, bf, rng, cursor, next, any, fr);
        i := i + 1;
      }
      assert es[..i] == es;
      QuietMeansInapplicable(s0, es, rng, cursor);
    }
  }

  /**
   * The `i`th step of the effect loop, seen on the fold `RunAll` describes:
   * `any` says whether an earlier effect ran and `anyAfter` whether one
   * has run now.
   */
  method RunNext(ghost s0: Scene, es: seq<ActionEffect>, i: nat, user: Entity?, target: Entity?, bf: Battlefield?,
                 rng: Rng, cursor: nat, next: nat, any: bool, ghost fr: set<object>)
    returns (anyAfter: bool, after: nat)
    requires i < |es| && (bf != null ==> bf.Grounded())
    requires var t := RunAll(s0, es[..i], rng, cursor);
             Snap(user, target, bf) == t.scene && next == t.next && (any <==> true in t.fired)
    requires Touched(user, target, bf) == fr
    modifies fr
    ensures bf != null ==> bf.Grounded()
    ensures Touched(user, target, bf) == fr
    ensures after >= next
    ensures any ==> anyAfter
    ensures !anyAfter ==> after == next && unchanged(fr)
    ensures var t := RunAll(s0, es[..i + 1], rng, cursor);
            Snap(user, target, bf) == t.scene && after == t.next && (anyAfter <==> true in t.fired)
  {
    RunAllKeepsCast(s0, es[..i], rng, cursor);
    ghost var u, t := PartyOf(user), PartyOf(target);
    var ran;
    ran, after := RunIfApplicable(es[i], user, target, bf, rng, next);
    RunAllStep(s0, es, rng, cursor, i);
    RunAllKeepsCast(s0, es[..i + 1], rng, cursor);
    assert PartyOf(user) == u && PartyOf(target) == t;
    anyAfter := any || ran;
  }

  /** One step of the effect loop: an effect runs exactly when it is applicable. */
  method RunIfApplicable(eff: ActionEffect, user: Entity?, target: Entity?, bf: Battlefield?, rng: Rng, cursor: nat)
    returns (ran: bool, next: nat)
    requires bf != null ==> bf.Grounded()
    modifies Touched(user, target, bf)
    ensures bf != null ==> bf.Grounded()
    ensures ran == old(CanApply(eff, user, target, bf)) == old(Applicable(Snap(user, target, bf), eff))
    ensures next >= cursor
    ensures !ran ==> next == cursor && unchanged(old(Touched(user, target, bf)))
    ensures ran ==> var o := Fire(old(Snap(user, target, bf)), eff, rng, cursor);
                    Snap(user, target, bf) == o.scene && next == o.next
  {
    SnapApplicable(eff, user, target, bf);
    if CanApply(eff, user, target, bf) {
      ApplicableEffectRuns(eff, user, target, bf);
      ran, next := ExecuteEffect(eff, user, target, bf, rng, cursor);
    } else {
      ran, next := false, cursor;
    }
  }
}
