/**
 * Room encounters.  Every encounter carries a completion record (the
 * `Encounter` base: type, name, description, completed flag and result);
 * a combat encounter adds a difficulty, a combat system and the two
 * teams, a treasure encounter adds a quality and its items.  The two
 * concrete encounters hold their base record in `base`, where the C++
 * classes inherit it.
 */
module Encounters {
  import opened Common
  import opened Stats
  import opened Positions
  import opened Entities
  import opened Combat

  datatype EncounterType = CombatKind | TreasureKind | EmptyKind

  /** How an encounter ended; `Pending` while it has not. */
  datatype EncounterResult = Pending | Victory | Defeat | Completed | Skipped

  /** The description a new encounter gets from its type. */
  function DefaultDescription(kind: EncounterType): string
  {
    match kind
    case CombatKind => "A hostile group of enemies blocks your path."
    case TreasureKind => "You discover a treasure chest containing valuable items."
    case EmptyKind => "An empty area with nothing of interest."
  }

  // ----- Completion -----

  /** The completion record of an encounter. */
  datatype Progress = Progress(completed: bool, result: EncounterResult)

  /** One call of `Complete(r)`: an open record takes `r`, a completed one stays as it is. */
  function Completing(p: Progress, r: EncounterResult): Progress
  {
    if p.completed then p else Progress(true, r)
  }

  /** A series of `Complete` calls, in order. */
  function CompleteAll(p: Progress, rs: seq<EncounterResult>): Progress
    decreases |rs|
  {
    if rs == [] then p else CompleteAll(Completing(p, rs[0]), rs[1..])
  }

  /** After any call the encounter is completed, and a second call changes nothing. */
  lemma CompletingSettles(p: Progress, r1: EncounterResult, r2: EncounterResult)
    ensures Completing(p, r1).completed
    ensures Completing(Completing(p, r1), r2) == Completing(p, r1)
    ensures !p.completed ==> Completing(p, r1).result == r1
  {
  }

  /** A completed record ignores any further series of calls. */
  lemma {:induction false} CompletedStays(p: Progress, rs: seq<EncounterResult>)
    requires p.completed
    ensures CompleteAll(p, rs) == p
    decreases |rs|
  {
    if rs != [] {
      CompletedStays(Completing(p, rs[0]), rs[1..]);
    }
  }

  /** Only the first completion counts: a new encounter completed by several calls keeps the first result. */
  lemma FirstCompletionWins(rs: seq<EncounterResult>)
    requires rs != []
    ensures CompleteAll(Progress(false, Pending), rs) == Progress(true, rs[0])
  {
    CompletedStays(Progress(true, rs[0]), rs[1..]);
  }

  /** The base record shared by every encounter. */
  class Encounter {
    const kind: EncounterType
    const name: string
    var description: string
    var completed: bool
    var result: EncounterResult

    /** Open, without a result, with the description of its type. */
    constructor(kind: EncounterType, name: string)
      ensures this.kind == kind && this.name == name
      ensures description == DefaultDescription(kind)
      ensures !completed && result == Pending
    {
      this.kind := kind;
      this.name := name;
      description := DefaultDescription(kind);
      completed := false;
      result := Pending;
    }

    function State(): Progress
      reads this
    {
      Progress(completed, result)
    }

    method SetDescription(desc: string)
      modifies this`description
      ensures description == desc
    {
      description := desc;
    }

    /** Records the result on the first call only. */
    method Complete(r: EncounterResult)
      modifies this`completed, this`result
      ensures State() == Completing(old(State()), r)
    {
      if !completed {
        completed := true;
        result := r;
      }
    }
  }

  // ----- Combat encounters -----

  /** The description of a combat encounter, chosen from the difficulty as passed (before clamping). */
  function CombatDescription(d: int): string
  {
    if d <= 1 then "A small group of weak enemies blocks your path."
    else if d <= 3 then "Several enemies stand in your way. They look dangerous."
    else if d <= 5 then "A large group of strong enemies prepares to attack!"
    else "An extremely powerful enemy force threatens your very existence!"
  }

  /** What a finished fight means for the encounter; a fight without a verdict leaves it pending. */
  function EncounterResultOf(r: CombatResult): EncounterResult
  {
    match r
    case PlayerVictory => Victory
    case PlayerDefeat => Defeat
    case Escape => Skipped
    case NoResult => Pending
  }

  /**
   * The mapping loses nothing: distinct verdicts give distinct results,
   * and only a fight without a verdict leaves the encounter pending.
   */
  lemma ResultMappingInjective(a: CombatResult, b: CombatResult)
    ensures EncounterResultOf(a) == EncounterResultOf(b) ==> a == b
    ensures EncounterResultOf(a) == Pending <==> a == NoResult
    ensures EncounterResultOf(a) != Completed
  {
  }

  /**
   * The verdict read from the teams is never an escape, so updating a
   * combat encounter never skips it; an escape reaches the encounter
   * only through an explicit `Complete(Skipped)`.
   */
  lemma UpdateNeverSkips(players: seq<Entity?>, enemies: seq<Entity?>)
    ensures EncounterResultOf(Outcome(players, enemies)) != Skipped
  {
  }

  /** The three kinds of generated enemy. */
  datatype EnemyKind = Scout | Brute | Mage

  /** The enemy kind drawn uniformly from 0..2. */
  function EnemyKindOf(roll: nat): EnemyKind
  {
    var k := roll % 3;
    if k == 0 then Scout else if k == 1 then Brute else Mage
  }

  function EnemyTitle(kind: EnemyKind): string
  {
    match kind
    case Scout => "Quick Scout #"
    case Brute => "Brute Warrior #"
    case Mage => "Dark Mage #"
  }

  /** The seven attributes an enemy is initialised with, from its kind and level. */
  function EnemyBaseStats(kind: EnemyKind, level: int): map<StatType, int>
  {
    var b := 5 + level;
    match kind
    case Scout =>
      map[Strength := b, Intellect := b - 2, Speed := b + 5, Dexterity := b + 3,
          Constitution := b - 1, Defense := b - 2, Luck := b + 2]
    case Brute =>
      map[Strength := b + 5, Intellect := b - 3, Speed := b - 1, Dexterity := b,
          Constitution := b + 3, Defense := b + 1, Luck := b - 2]
    case Mage =>
      map[Strength := b - 2, Intellect := b + 5, Speed := b + 1, Dexterity := b - 1,
          Constitution := b, Defense := b - 2, Luck := b + 3]
  }

  /** The health an enemy of this kind and level is meant to have. */
  function DesiredHealth(kind: EnemyKind, level: int): int
  {
    match kind
    case Brute => 20 + level * 5
    case _ => 18 + level * 4
  }

  /** The Constitution that gives the desired health under `10 + 5 * CON` (C++ division). */
  function NeededCon(kind: EnemyKind, level: int): int
  {
    TruncDiv(DesiredHealth(kind, level) - 10, 5)
  }

  /** The Constitution adjustment hits the desired health to within one step of five, never above it. */
  lemma EnemyHealthNearDesired(kind: EnemyKind, level: int)
    requires DesiredHealth(kind, level) >= 10
    ensures DesiredHealth(kind, level) - 5 < 10 + 5 * NeededCon(kind, level) <= DesiredHealth(kind, level)
  {
    var d := DesiredHealth(kind, level) - 10;
    assert d == 5 * (d / 5) + d % 5;
  }

  /** Health grows with the level: a higher level never gives a generated enemy less health. */
  lemma EnemyHealthMonotone(kind: EnemyKind, l1: int, l2: int)
    requires 0 <= l1 <= l2
    ensures NeededCon(kind, l1) <= NeededCon(kind, l2)
  {
    var d1 := DesiredHealth(kind, l1) - 10;
    var d2 := DesiredHealth(kind, l2) - 10;
    assert 0 <= d1 <= d2;
    FloorDivWithin(d1, 5, 0, d2 / 5 + 1);
    assert d2 == 5 * (d2 / 5) + d2 % 5;
    assert d1 == 5 * (d1 / 5) + d1 % 5;
  }

  /** The stats a generated enemy of `kind` and `level` starts with. */
  predicate HasEnemyStats(stats: StatsComponent, kind: EnemyKind, level: int)
    reads stats
  {
    stats.baseStats == EnemyBaseStats(kind, level)[Constitution := NeededCon(kind, level)] &&
    stats.modifiers == map[] &&
    stats.maxHealth == 10 + 5 * NeededCon(kind, level) &&
    stats.currentHealth == stats.maxHealth
  }

  /** A freshly generated enemy: its starting stats, and a position component on tile 7. */
  predicate IsGeneratedEnemy(e: Entity, kind: EnemyKind, level: int)
    reads e, e.stats, e.position
  {
    e.stats != null && HasEnemyStats(e.stats, kind, level) && e.position != null && e.position.position == 7 && e.position.Valid()
  }

  /**
   * A team generated from the draws at `cursor`: the `i`-th enemy used
   * the two draws from `cursor + 2 * i` (its kind and its tag).
   */
  predicate Generated(team: seq<Entity?>, level: int, rng: Rng, cursor: nat)
    reads set i | 0 <= i < |team| :: team[i]
    reads set i | 0 <= i < |team| && team[i] != null :: team[i].stats
    reads set i | 0 <= i < |team| && team[i] != null :: team[i].position
  {
    forall i :: 0 <= i < |team| ==>
      team[i] != null && IsGeneratedEnemy(team[i], EnemyKindOf(rng(cursor + 2 * i)), level)
  }

  /** A generated team stays generated when the enemy from the next two draws joins it. */
  lemma GeneratedSnoc(team: seq<Entity?>, e: Entity, level: int, rng: Rng, cursor: nat)
    requires Generated(team, level, rng, cursor)
    requires IsGeneratedEnemy(e, EnemyKindOf(rng(cursor + 2 * |team|)), level)
    ensures Generated(team + [e], level, rng, cursor)
  {
    var t := team + [e];
    forall i | 0 <= i < |t|
      ensures t[i] != null && IsGeneratedEnemy(t[i], EnemyKindOf(rng(cursor + 2 * i)), level)
    {
      if i < |team| {
        assert t[i] == team[i];
      }
    }
  }

  /**
   * The stats component of a new enemy: the kind's attributes, then
   * Constitution reset so that health is near the desired value, at full
   * health.
   */
  method NewEnemyStats(kind: EnemyKind, level: int) returns (stats: StatsComponent)
    ensures fresh(stats) && HasEnemyStats(stats, kind, level)
  {
    stats := new StatsComponent();
    var b := 5 + level;
    match kind {
      case Scout => stats.Initialize(b, b - 2, b + 5, b + 3, b - 1, b - 2, b + 2);
      case Brute => stats.Initialize(b + 5, b - 3, b - 1, b, b + 3, b + 1, b - 2);
      case Mage => stats.Initialize(b - 2, b + 5, b + 1, b - 1, b, b - 2, b + 3);
    }
    assert stats.baseStats == EnemyBaseStats(kind, level) && stats.modifiers == map[];
    stats.SetBaseStat(Constitution, NeededCon(kind, level));
    stats.SetCurrentHealth(stats.maxHealth);
  }

  /**
   * Builds one enemy of `level`: the kind and a tag 1..1000 from two
   * draws, the kind's attributes, Constitution reset so that health is
   * near the desired value, full health, and a position component on
   * tile 7.
   */
  method CreateRandomEnemy(level: int, rng: Rng, cursor: nat) returns (e: Entity, next: nat)
    ensures fresh(e) && fresh(e.stats) && fresh(e.position)
    ensures IsGeneratedEnemy(e, EnemyKindOf(rng(cursor)), level)
    ensures e.name == EnemyTitle(EnemyKindOf(rng(cursor))) + NatToString(rng(cursor + 1) % 1000 + 1)
    ensures next == cursor + 2
  {
    var kind := EnemyKindOf(rng(cursor));
    var tag := rng(cursor + 1) % 1000 + 1;
    var stats := NewEnemyStats(kind, level);
    var pos := new PositionComponent();
    pos.SetPosition(7);
    e := new Entity(EnemyTitle(kind) + NatToString(tag), stats, pos);
    next := cursor + 2;
  }

  /** The encounter a room holds, if any. */
  datatype EncounterRef = NoEncounter | CombatRef(fight: CombatEncounter) | TreasureRef(chest: TreasureEncounter)

  class CombatEncounter {
    const base: Encounter
    const difficulty: int
    const combat: CombatSystem
    var playerTeam: seq<Entity?>
    var enemyTeam: seq<Entity?>
    var isActive: bool

    predicate Valid()
      reads this, combat, combat.battlefield, combat.battlefield.positions
    {
      difficulty >= 1 && combat.battlefield.Valid()
    }

    /**
     * A combat encounter of at least difficulty 1, described from the
     * difficulty as passed, with a combat system that has not started.
     */
    constructor(name: string, difficulty: int)
      ensures fresh(base) && base.kind == CombatKind && base.name == name
      ensures base.description == CombatDescription(difficulty)
      ensures !base.completed && base.result == Pending
      ensures this.difficulty == Max(1, difficulty)
      ensures fresh(combat) && combat.state == NotStarted
      ensures playerTeam == [] && enemyTeam == [] && !isActive
      ensures Valid()
    {
      var b := new Encounter(CombatKind, name);
      b.SetDescription(CombatDescription(difficulty));
      base := b;
      this.difficulty := Max(1, difficulty);
      combat := new CombatSystem();
      playerTeam := [];
      enemyTeam := [];
      isActive := false;
    }

    /** Running: started and not yet completed. */
    predicate IsActive()
      reads this, base
    {
      isActive && !base.completed
    }

    method SetPlayerTeam(team: seq<Entity?>)
      modifies this`playerTeam
      ensures playerTeam == team
    {
      playerTeam := team;
    }

    /** Appends a present enemy; a missing one is ignored. */
    method AddEnemy(enemy: Entity?)
      modifies this`enemyTeam
      ensures enemyTeam == old(enemyTeam) + (if enemy != null then [enemy] else [])
    {
      if enemy != null {
        enemyTeam := enemyTeam + [enemy];
      }
    }

    /** Replaces the enemy team by `count` new enemies of the encounter's difficulty. */
    method GenerateEnemies(count: int, rng: Rng, cursor: nat) returns (next: nat)
      modifies this`enemyTeam
      ensures |enemyTeam| == Max(count, 0) && next == cursor + 2 * |enemyTeam|
      ensures Generated(enemyTeam, difficulty, rng, cursor)
      ensures forall i :: 0 <= i < |enemyTeam| ==>
                fresh(enemyTeam[i]) && fresh(enemyTeam[i].stats) && fresh(enemyTeam[i].position)
    {
      enemyTeam := [];
      next := cursor;
      var i := 0;
      while i < count
        invariant 0 <= i == |enemyTeam| && i <= Max(count, 0)
        invariant next == cursor + 2 * i
        invariant Generated(enemyTeam, difficulty, rng, cursor)
        invariant forall j :: 0 <= j < i ==>
                    fresh(enemyTeam[j]) && fresh(enemyTeam[j].stats) && fresh(enemyTeam[j].position)
      {
        var enemy;
        enemy, next := CreateRandomEnemy(difficulty, rng, next);
        assert Generated(enemyTeam, difficulty, rng, cursor);
        GeneratedSnoc(enemyTeam, enemy, difficulty, rng, cursor);
        enemyTeam := enemyTeam + [enemy];
        i := i + 1;
      }
    }

    /**
     * Starts the fight once: when neither completed nor running, fills an
     * empty enemy team with `1 + difficulty / 2` generated enemies, starts
     * the combat system on the two teams and marks the encounter running.
     */
    method Start(rng: Rng, cursor: nat) returns (next: nat)
      requires Valid()
      modifies this`enemyTeam, this`isActive
      modifies combat`playerTeam, combat`enemyTeam, combat`state
      modifies combat.battlefield, combat.battlefield.positions, combat.turns
      modifies Members(playerTeam), Components(playerTeam), Members(enemyTeam), Components(enemyTeam)
      ensures Valid()
      ensures old(base.completed || isActive) ==>
                enemyTeam == old(enemyTeam) && isActive == old(isActive) && next == cursor &&
                unchanged(combat)
      ensures !old(base.completed || isActive) ==>
                isActive && combat.state == SelectingAction &&
                combat.playerTeam == playerTeam && combat.enemyTeam == enemyTeam
      ensures !old(base.completed || isActive) ==>
                Deployed(combat.battlefield, Line(playerTeam), Line(enemyTeam)) &&
                Aimed(Pointers(Line(playerTeam)), 0, Pointers(Line(enemyTeam))) &&
                Aimed(Pointers(Line(enemyTeam)), 4, []) && Queued(combat.turns, playerTeam + enemyTeam)
      ensures !old(base.completed || isActive) && old(enemyTeam) != [] ==>
                enemyTeam == old(enemyTeam) && next == cursor
      ensures !old(base.completed || isActive) && old(enemyTeam) == [] ==>
                |enemyTeam| == 1 + difficulty / 2 && next == cursor + 2 * |enemyTeam| &&
                forall i :: 0 <= i < |enemyTeam| ==>
                  enemyTeam[i] != null && enemyTeam[i].stats != null &&
                  HasEnemyStats(enemyTeam[i].stats, EnemyKindOf(rng(cursor + 2 * i)), difficulty)
    {
      next := cursor;
      if !base.completed && !isActive {
        next := Open(rng, cursor);
      }
    }

    /**
     * Starting an encounter neither completed nor running: an empty enemy
     * team is filled first, then the combat system starts on both teams.
     */
    method Open(rng: Rng, cursor: nat) returns (next: nat)
      requires Valid()
      modifies this`enemyTeam, this`isActive
      modifies combat`playerTeam, combat`enemyTeam, combat`state
      modifies combat.battlefield, combat.battlefield.positions, combat.turns
      modifies Members(playerTeam), Components(playerTeam), Members(enemyTeam), Components(enemyTeam)
      ensures Valid()
      ensures isActive && combat.state == SelectingAction &&
              combat.playerTeam == playerTeam && combat.enemyTeam == enemyTeam
      ensures Deployed(combat.battlefield, Line(playerTeam), Line(enemyTeam)) &&
              Aimed(Pointers(Line(playerTeam)), 0, Pointers(Line(enemyTeam))) &&
              Aimed(Pointers(Line(enemyTeam)), 4, []) && Queued(combat.turns, playerTeam + enemyTeam)
      ensures old(enemyTeam) != [] ==> enemyTeam == old(enemyTeam) && next == cursor
      ensures old(enemyTeam) == [] ==>
                |enemyTeam| == 1 + difficulty / 2 && next == cursor + 2 * |enemyTeam| &&
                forall i :: 0 <= i < |enemyTeam| ==>
                  enemyTeam[i] != null && enemyTeam[i].stats != null &&
                  HasEnemyStats(enemyTeam[i].stats, EnemyKindOf(rng(cursor + 2 * i)), difficulty)
    {
      next := cursor;
      if enemyTeam == [] {
        next := GenerateEnemies(1 + difficulty / 2, rng, cursor);
      }
      label Armed:
      Launch();
      if old(enemyTeam) == [] {
        forall i | 0 <= i < |enemyTeam|
          ensures enemyTeam[i] != null && enemyTeam[i].stats != null
          ensures HasEnemyStats(enemyTeam[i].stats, EnemyKindOf(rng(cursor + 2 * i)), difficulty)
        {
          assert old@Armed(IsGeneratedEnemy(enemyTeam[i], EnemyKindOf(rng(cursor + 2 * i)), difficulty));
        }
      }
    }

    /** Starts the combat system on the two teams; the enemies' stats are left as they were. */
    method Launch()
      requires Valid()
      modifies this`isActive
      modifies combat`playerTeam, combat`enemyTeam, combat`state
      modifies combat.battlefield, combat.battlefield.positions, combat.turns
      modifies Members(playerTeam), Components(playerTeam), Members(enemyTeam), Components(enemyTeam)
      ensures Valid() && isActive
      ensures combat.state == SelectingAction && combat.playerTeam == playerTeam && combat.enemyTeam == enemyTeam
      ensures forall i :: 0 <= i < |enemyTeam| && enemyTeam[i] != null && enemyTeam[i].stats != null ==>
                unchanged(enemyTeam[i].stats)
      ensures unchanged(Members(playerTeam)) && unchanged(Members(enemyTeam))
      ensures Deployed(combat.battlefield, Line(playerTeam), Line(enemyTeam))
      ensures Aimed(Pointers(Line(playerTeam)), 0, Pointers(Line(enemyTeam)))
      ensures Aimed(Pointers(Line(enemyTeam)), 4, [])
      ensures Queued(combat.turns, playerTeam + enemyTeam)
    {
      isActive := true;
      ghost var l1, l2 := Line(playerTeam), Line(enemyTeam);
      ghost var p1, p2 := Pointers(l1), Pointers(l2);
      Engage(l1, l2, p1, p2);
    }

    /**
     * Starts the combat system on the two teams, with `l1` and `l2` their
     * lines and `p1` and `p2` their components.
     */
    method Engage(ghost l1: seq<Entity?>, ghost l2: seq<Entity?>, ghost p1: seq<PositionComponent?>,
                  ghost p2: seq<PositionComponent?>)
      requires Valid()
      requires l1 == Line(playerTeam) && l2 == Line(enemyTeam) && p1 == Pointers(l1) && p2 == Pointers(l2)
      modifies combat`playerTeam, combat`enemyTeam, combat`state
      modifies combat.battlefield, combat.battlefield.positions, combat.turns
      modifies Members(playerTeam), Components(playerTeam), Members(enemyTeam), Components(enemyTeam)
      ensures combat.state == SelectingAction && combat.playerTeam == playerTeam && combat.enemyTeam == enemyTeam
      ensures unchanged(Members(playerTeam)) && unchanged(Members(enemyTeam))
      ensures Line(playerTeam) == l1 && Line(enemyTeam) == l2 && Pointers(l1) == p1 && Pointers(l2) == p2
      ensures Deployed(combat.battlefield, l1, l2)
      ensures Aimed(p1, 0, p2) && Aimed(p2, 4, [])
      ensures forall i :: 0 <= i < |enemyTeam| && enemyTeam[i] != null && enemyTeam[i].stats != null ==>
                unchanged(enemyTeam[i].stats)
      ensures Queued(combat.turns, playerTeam + enemyTeam)
    {
      combat.StartCombat(playerTeam, enemyTeam);
      LineKept(playerTeam);
      LineKept(enemyTeam);
    }

    /**
     * One update while running: the fight's verdict, mapped to an
     * encounter result, completes the encounter when there is one.
     */
    method Update()
      modifies base`completed, base`result, this`isActive
      ensures var r := old(EncounterResultOf(Outcome(combat.playerTeam, combat.enemyTeam)));
              if old(IsActive()) && r != Pending
              then base.State() == Progress(true, r) && !isActive
              else base.State() == old(base.State()) && isActive == old(isActive)
    {
      if !base.completed && isActive {
        var verdict := combat.CheckCombatResult();
        var r := EncounterResultOf(verdict);
        if r != Pending {
          Complete(r);
        }
      }
    }

    /** Records the first result and stops the fight. */
    method Complete(r: EncounterResult)
      modifies base`completed, base`result, this`isActive
      ensures base.State() == Completing(old(base.State()), r)
      ensures !isActive && !IsActive()
    {
      base.Complete(r);
      isActive := false;
    }
  }

  // ----- Treasure encounters -----

  /** The description of a treasure encounter, chosen from the quality as passed (before clamping). */
  function TreasureDescription(q: int): string
  {
    if q <= 1 then "A small chest with some basic loot."
    else if q <= 3 then "A medium-sized chest that might contain valuable items."
    else if q <= 5 then "A large ornate chest that looks very promising!"
    else "An ancient treasure hoard of legendary quality!"
  }

  datatype TreasureItem = TreasureItem(id: string, name: string, description: string, value: int)

  /** The four kinds of generated loot. */
  datatype LootKind = Gold | Weapon | Armor | Potion

  /** The loot kind drawn uniformly from 0..3. */
  function LootKindOf(roll: nat): LootKind
  {
    var k := roll % 4;
    if k == 0 then Gold else if k == 1 then Weapon else if k == 2 then Armor else Potion
  }

  function LootPrefix(kind: LootKind): string
  {
    match kind
    case Gold => "gold_"
    case Weapon => "weapon_"
    case Armor => "armor_"
    case Potion => "potion_"
  }

  /** The item name by kind and level tier (up to 2, up to 4, above). */
  function LootName(kind: LootKind, level: int): string
  {
    match kind
    case Gold => "Gold Coins"
    case Weapon => if level <= 2 then "Common Sword" else if level <= 4 then "Quality Blade" else "Legendary Weapon"
    case Armor => if level <= 2 then "Leather Armor" else if level <= 4 then "Chain Mail" else "Enchanted Plate"
    case Potion => if level <= 2 then "Minor Healing Potion" else if level <= 4 then "Healing Potion" else "Elixir of Life"
  }

  function LootDescription(kind: LootKind, level: int): string
  {
    match kind
    case Gold => "A pile of shiny gold coins."
    case Weapon =>
      if level <= 2 then "A basic but functional sword."
      else if level <= 4 then "A well-crafted blade of good steel."
      else "A weapon of extraordinary power."
    case Armor =>
      if level <= 2 then "Basic protective gear made of leather."
      else if level <= 4 then "Metal rings linked together for protection."
      else "Magical armor that seems to move with you."
    case Potion =>
      if level <= 2 then "Restores a small amount of health."
      else if level <= 4 then "Restores a significant amount of health."
      else "Completely restores health and grants temporary invulnerability."
  }

  /**
   * The value before the random adjustment: `5 * level + level * level`
   * for gold, otherwise `10 * level` scaled by the tier (x2 or x5 for
   * weapons and armour, x1.5 truncated or x3 for potions).
   */
  function LootBaseValue(kind: LootKind, level: int): int
  {
    var v := 10 * level;
    match kind
    case Gold => 5 * level + level * level
    case Potion => if level <= 2 then v else if level <= 4 then TruncDiv(v * 3, 2) else v * 3
    case _ => if level <= 2 then v else if level <= 4 then v * 2 else v * 5
  }

  /** The random adjustment, drawn uniformly from `-level..2 * level`. */
  function ValueShift(level: nat, roll: nat): int
  {
    roll % (3 * level + 1) - level
  }

  /** The item generated at `level` from three draws: its kind, its tag 1..1000 and its value adjustment. */
  function TreasureFor(level: nat, kindRoll: nat, tagRoll: nat, valueRoll: nat): TreasureItem
  {
    var kind := LootKindOf(kindRoll);
    TreasureItem(LootPrefix(kind) + NatToString(tagRoll % 1000 + 1),
                 LootName(kind, level), LootDescription(kind, level),
                 Max(1, LootBaseValue(kind, level) + ValueShift(level, valueRoll)))
  }

  /**
   * A generated item is worth at least 1, and its value lies within the
   * adjustment range around its kind's base value.
   */
  lemma TreasureValueBounds(level: nat, kindRoll: nat, tagRoll: nat, valueRoll: nat)
    ensures var item := TreasureFor(level, kindRoll, tagRoll, valueRoll);
            var base := LootBaseValue(LootKindOf(kindRoll), level);
            1 <= item.value && Max(1, base - level) <= item.value <= Max(1, base + 2 * level)
  {
    var s := ValueShift(level, valueRoll);
    assert 0 <= valueRoll % (3 * level + 1) <= 3 * level;
    assert s + level >= 0 && s <= 2 * level;
  }

  /** The item dealt from the three draws at `k`. */
  function Deal(level: nat, rng: Rng, k: nat): TreasureItem
  {
    TreasureFor(level, rng(k), rng(k + 1), rng(k + 2))
  }

  /** The first `n` items dealt from the draws at `cursor`, three draws per item. */
  function Dealing(level: nat, rng: Rng, cursor: nat, n: nat): (items: seq<TreasureItem>)
    ensures |items| == n
  {
    if n == 0 then [] else Dealing(level, rng, cursor, n - 1) + [Deal(level, rng, cursor + 3 * (n - 1))]
  }

  /** Dealing one more item takes the next three draws. */
  lemma DealingNext(level: nat, rng: Rng, cursor: nat, n: nat)
    ensures Dealing(level, rng, cursor, n + 1) == Dealing(level, rng, cursor, n) + [Deal(level, rng, cursor + 3 * n)]
  {
  }

  /** Every dealt item is worth at least 1. */
  lemma {:induction false} DealingValues(level: nat, rng: Rng, cursor: nat, n: nat)
    ensures forall i :: 0 <= i < n ==> Dealing(level, rng, cursor, n)[i].value >= 1
  {
    if n > 0 {
      DealingValues(level, rng, cursor, n - 1);
      var k := cursor + 3 * (n - 1);
      TreasureValueBounds(level, rng(k), rng(k + 1), rng(k + 2));
    }
  }

  class TreasureEncounter {
    const base: Encounter
    const quality: int
    var items: seq<TreasureItem>
    var isActive: bool

    predicate Valid()
      reads this
    {
      quality >= 1
    }

    /** A treasure encounter of at least quality 1, described from the quality as passed, with no items. */
    constructor(name: string, quality: int)
      ensures fresh(base) && base.kind == TreasureKind && base.name == name
      ensures base.description == TreasureDescription(quality)
      ensures !base.completed && base.result == Pending
      ensures this.quality == Max(1, quality)
      ensures items == [] && !isActive
      ensures Valid()
    {
      var b := new Encounter(TreasureKind, name);
      b.SetDescription(TreasureDescription(quality));
      base := b;
      this.quality := Max(1, quality);
      items := [];
      isActive := false;
    }

    /** Running: started and not yet completed. */
    predicate IsActive()
      reads this, base
    {
      isActive && !base.completed
    }

    method AddTreasureItem(item: TreasureItem)
      modifies this`items
      ensures items == old(items) + [item]
    {
      items := items + [item];
    }

    /** Replaces the items by `1 + quality / 2` generated ones. */
    method GenerateTreasure(rng: Rng, cursor: nat) returns (next: nat)
      requires Valid()
      modifies this`items
      ensures items == Dealing(quality, rng, cursor, 1 + quality / 2)
      ensures |items| == 1 + quality / 2 && next == cursor + 3 * |items|
    {
      items := [];
      var count := 1 + quality / 2;
      next := cursor;
      var i := 0;
      while i < count
        invariant 0 <= i <= count && |items| == i && next == cursor + 3 * i
        invariant items == Dealing(quality, rng, cursor, i)
      {
        DealingNext(quality, rng, cursor, i);
        items := items + [Deal(quality, rng, cursor + 3 * i)];
        next := next + 3;
        i := i + 1;
      }
    }

    /**
     * Opens the chest once: when neither completed nor running, deals
     * the items if there are none yet and marks the encounter running.
     */
    method Start(rng: Rng, cursor: nat) returns (next: nat)
      requires Valid()
      modifies this`items, this`isActive
      ensures old(base.completed || isActive) ==>
                items == old(items) && isActive == old(isActive) && next == cursor
      ensures !old(base.completed || isActive) ==> isActive
      ensures !old(base.completed || isActive) && old(items) != [] ==> items == old(items) && next == cursor
      ensures !old(base.completed || isActive) && old(items) == [] ==>
                items == Dealing(quality, rng, cursor, 1 + quality / 2) && next == cursor + 3 * |items|
    {
      next := cursor;
      if !base.completed && !isActive {
        if items == [] {
          next := GenerateTreasure(rng, cursor);
        }
        isActive := true;
      }
    }

    /**
     * One update while running: once the waiting time is over
     * (`timedOut`), the encounter completes with `Completed`.
     */
    method Update(timedOut: bool)
      modifies base`completed, base`result, this`isActive
      ensures old(IsActive()) && timedOut ==> base.State() == Progress(true, Completed) && !isActive
      ensures !(old(IsActive()) && timedOut) ==> base.State() == old(base.State()) && isActive == old(isActive)
    {
      if !base.completed && isActive {
        if timedOut {
          Complete(Completed);
        }
      }
    }

    /** Records the first result and closes the chest. */
    method Complete(r: EncounterResult)
      modifies base`completed, base`result, this`isActive
      ensures base.State() == Completing(old(base.State()), r)
      ensures !isActive && !IsActive()
    {
      base.Complete(r);
      isActive := false;
    }
  }
}
