/**
 * Status effects (poison, stun, stat buffs and debuffs) and the component
 * that keeps an entity's ordered list of them.  Each effect is owned by
 * exactly one list, so an effect is a value and the component reassigns
 * its list.
 */
module StatusEffects {
  import opened Common
  import opened Stats
  import opened Entities

  /** The kinds an effect can be tagged with. */
  datatype EffectType = Poison | Stun | Buff | Debuff | Burning | Freezing | Bleeding | Confusion | Blind | Shield

  /** What an effect does in its hooks. */
  datatype Behaviour =
    | DamageOverTime(damagePerTurn: int)
    | SkipTurn
    | StatChange(stat: StatType, value: int, applied: bool)

  datatype StatusEffect = StatusEffect(kind: EffectType, duration: int, name: string, behaviour: Behaviour)

  /** An effect is over once its duration reaches zero. */
  predicate HasExpired(e: StatusEffect)
  {
    e.duration <= 0
  }

  /** The end-of-turn countdown: one turn less, never below zero. */
  function DecreaseDuration(e: StatusEffect): (r: StatusEffect)
    ensures r.kind == e.kind && r.name == e.name && r.behaviour == e.behaviour
    ensures e.duration > 0 ==> r.duration == e.duration - 1
    ensures e.duration <= 0 ==> r.duration == e.duration
    ensures e.duration >= 0 ==> r.duration >= 0
  {
    if e.duration > 0 then e.(duration := e.duration - 1) else e
  }

  /** Counting down from `d >= 0` expires the effect after exactly `d` turn ends. */
  lemma {:induction false} ExpiresAfterDuration(e: StatusEffect, k: nat)
    requires 0 <= e.duration
    ensures Repeat(e, k).duration == Max(0, e.duration - k)
    ensures HasExpired(Repeat(e, k)) <==> k >= e.duration
    decreases k
  {
    if k > 0 {
      ExpiresAfterDuration(e, k - 1);
    }
  }

  /** `k` end-of-turn countdowns. */
  function Repeat(e: StatusEffect, k: nat): StatusEffect
    decreases k
  {
    if k == 0 then e else DecreaseDuration(Repeat(e, k - 1))
  }

  /** Damage over time, named "Poison". */
  function PoisonEffect(duration: int, damagePerTurn: int): (e: StatusEffect)
    ensures e.kind == Poison && e.name == "Poison" && e.duration == duration
    ensures e.behaviour == DamageOverTime(damagePerTurn)
  {
    StatusEffect(Poison, duration, "Poison", DamageOverTime(damagePerTurn))
  }

  /** Skips the owner's turns, named "Stun". */
  function StunEffect(duration: int): (e: StatusEffect)
    ensures e.kind == Stun && e.name == "Stun" && e.duration == duration
    ensures e.behaviour == SkipTurn
  {
    StatusEffect(Stun, duration, "Stun", SkipTurn)
  }

  /** The name of a stat buff: a '+' for positive values, the value, a space, the stat. */
  function BuffName(stat: StatType, value: int): string
  {
    (if value > 0 then "+" else "") + IntToString(value) + " " + StatName(stat)
  }

  /** A not-yet-applied stat modifier; a buff when the value is positive, otherwise a debuff. */
  function StatBuffEffect(duration: int, stat: StatType, value: int): (e: StatusEffect)
    ensures e.kind == Buff <==> value > 0
    ensures e.kind == Debuff <==> value <= 0
    ensures e.duration == duration && e.behaviour == StatChange(stat, value, false)
    ensures e.name == BuffName(stat, value)
  {
    StatusEffect(if value > 0 then Buff else Debuff, duration, BuffName(stat, value),
                 StatChange(stat, value, false))
  }

  /** Buff names start with '+' and debuff names with '-' or a digit, so the two never clash. */
  lemma BuffAndDebuffNamesDiffer(stat: StatType, v: int, w: int)
    requires v > 0 && w <= 0
    ensures BuffName(stat, v) != BuffName(stat, w)
  {
    var a := BuffName(stat, v);
    var b := BuffName(stat, w);
    assert a[0] == '+';
    assert b[0] == IntToString(w)[0];
    if w < 0 {
      assert b[0] == '-';
    } else {
      assert '0' <= b[0] <= '9';
    }
  }

  /**
   * The effect factory: poison with the magnitude as damage per turn,
   * stun, and Strength buffs/debuffs of the magnitude's absolute value;
   * every other kind is unsupported.
   */
  function CreateStatusEffect(kind: EffectType, duration: int, magnitude: int := 0): (r: Option<StatusEffect>)
    ensures r.Some? <==> kind in {Poison, Stun, Buff, Debuff}
    ensures kind == Poison ==> r == Some(PoisonEffect(duration, magnitude))
    ensures kind == Stun ==> r == Some(StunEffect(duration))
    ensures kind == Buff ==> r == Some(StatBuffEffect(duration, Strength, Abs(magnitude)))
    ensures kind == Debuff ==> r == Some(StatBuffEffect(duration, Strength, -Abs(magnitude)))
    ensures kind == Buff && magnitude != 0 ==> r.value.kind == Buff
    ensures kind == Debuff ==> r.value.kind == Debuff
  {
    match kind
    case Poison => Some(PoisonEffect(duration, magnitude))
    case Stun => Some(StunEffect(duration))
    case Buff => Some(StatBuffEffect(duration, Strength, Abs(magnitude)))
    case Debuff => Some(StatBuffEffect(duration, Strength, -Abs(magnitude)))
    case _ => None
  }

  /** Whether the effect lets its owner act this turn: only a stun refuses. */
  predicate AllowsTurn(e: StatusEffect)
  {
    !e.behaviour.SkipTurn?
  }

  /** No two effects of the list share a name. */
  predicate UniqueNames(effs: seq<StatusEffect>)
  {
    forall i, j :: 0 <= i < j < |effs| ==> effs[i].name != effs[j].name
  }

  predicate HasName(effs: seq<StatusEffect>, name: string)
  {
    exists i :: 0 <= i < |effs| && effs[i].name == name
  }

  /** The effects whose name differs from `name`, in their original order. */
  function Without(effs: seq<StatusEffect>, name: string): seq<StatusEffect>
  {
    if effs == [] then []
    else Without(effs[..|effs| - 1], name) + (if effs[|effs| - 1].name == name then [] else [effs[|effs| - 1]])
  }

  /** The effects that have not expired, in their original order. */
  function Unexpired(effs: seq<StatusEffect>): seq<StatusEffect>
  {
    if effs == [] then []
    else Unexpired(effs[..|effs| - 1]) + (if HasExpired(effs[|effs| - 1]) then [] else [effs[|effs| - 1]])
  }

  /** `Without` keeps exactly the effects with another name. */
  lemma {:induction false} WithoutSound(effs: seq<StatusEffect>, name: string)
    ensures !HasName(Without(effs, name), name)
    ensures forall e :: e in Without(effs, name) <==> e in effs && e.name != name
    ensures |Without(effs, name)| <= |effs|
    ensures UniqueNames(effs) ==> UniqueNames(Without(effs, name))
    decreases |effs|
  {
    if effs != [] {
      var init := effs[..|effs| - 1];
      var last := effs[|effs| - 1];
      WithoutSound(init, name);
      assert effs == init + [last];
      if UniqueNames(effs) {
        assert UniqueNames(init);
        forall e | e in Without(init, name) ensures e.name != last.name {
          var i :| 0 <= i < |init| && init[i] == e;
        }
        UniqueAppend(Without(init, name), last);
      }
      var res := Without(effs, name);
      forall i | 0 <= i < |res| ensures res[i].name != name {
        assert res[i] in res;
      }
    }
  }

  /** `Unexpired` keeps exactly the effects with turns left. */
  lemma {:induction false} UnexpiredMembers(effs: seq<StatusEffect>)
    ensures forall e :: e in Unexpired(effs) <==> e in effs && !HasExpired(e)
    decreases |effs|
  {
    if effs != [] {
      UnexpiredMembers(effs[..|effs| - 1]);
      assert effs == effs[..|effs| - 1] + [effs[|effs| - 1]];
    }
  }

  lemma {:induction false} UnexpiredKeepsUniqueNames(effs: seq<StatusEffect>)
    requires UniqueNames(effs)
    ensures UniqueNames(Unexpired(effs))
    decreases |effs|
  {
    if effs != [] {
      var init := effs[..|effs| - 1];
      var last := effs[|effs| - 1];
      assert UniqueNames(init);
      UnexpiredKeepsUniqueNames(init);
      UnexpiredMembers(init);
      forall e | e in Unexpired(init) ensures e.name != last.name {
        var i :| 0 <= i < |init| && init[i] == e;
        assert effs[i] == e;
      }
      UniqueAppend(Unexpired(init), last);
    }
  }

  /** A list with nothing expired is unchanged by the filter. */
  lemma {:induction false} UnexpiredOfLive(effs: seq<StatusEffect>)
    requires forall i :: 0 <= i < |effs| ==> !HasExpired(effs[i])
    ensures Unexpired(effs) == effs
    decreases |effs|
  {
    if effs != [] {
      UnexpiredOfLive(effs[..|effs| - 1]);
    }
  }

  /** Appending an effect whose name is new keeps names unique. */
  lemma UniqueAppend(effs: seq<StatusEffect>, e: StatusEffect)
    requires UniqueNames(effs)
    requires forall x :: x in effs ==> x.name != e.name
    ensures UniqueNames(effs + [e])
  {
    var r := effs + [e];
    forall i, j | 0 <= i < j < |r| ensures r[i].name != r[j].name {
      if j == |effs| {
        assert r[i] in effs;
      } else {
        assert r[i] == effs[i] && r[j] == effs[j];
      }
    }
  }

  /** Effect after its start hook: a stat change is marked applied once its owner has stats. */
  function Started(e: StatusEffect, ownerHasStats: bool): (r: StatusEffect)
    ensures r.kind == e.kind && r.name == e.name && r.duration == e.duration
    ensures e.behaviour.StatChange? ==>
              r.behaviour == e.behaviour.(applied := e.behaviour.applied || ownerHasStats)
    ensures !e.behaviour.StatChange? ==> r == e
  {
    match e.behaviour
    case StatChange(s, v, applied) => if ownerHasStats then e.(behaviour := StatChange(s, v, true)) else e
    case _ => e
  }

  /** Running the start hook twice marks nothing new: the modifier is added at most once. */
  lemma StartedIdempotent(e: StatusEffect, ownerHasStats: bool)
    ensures Started(Started(e, ownerHasStats), ownerHasStats) == Started(e, ownerHasStats)
    ensures ownerHasStats ==> AddedBy(Started(e, ownerHasStats)) == []
  {
  }

  /** The modifier a start hook adds: a not-yet-applied stat change adds its value for its remaining duration. */
  function AddedBy(e: StatusEffect): seq<(StatType, Modifier)>
  {
    match e.behaviour
    case StatChange(s, v, applied) => if applied then [] else [(s, Modifier(v, e.duration))]
    case _ => []
  }

  /** The modifiers the effects' start hooks add, in list order. */
  function AddedByAll(effs: seq<StatusEffect>): seq<(StatType, Modifier)>
  {
    if effs == [] then [] else AddedByAll(effs[..|effs| - 1]) + AddedBy(effs[|effs| - 1])
  }

  /** The modifiers for one stat among those pairs, in order. */
  function ModifiersFor(ps: seq<(StatType, Modifier)>, t: StatType): seq<Modifier>
  {
    if ps == [] then []
    else ModifiersFor(ps[..|ps| - 1], t) + (if ps[|ps| - 1].0 == t then [ps[|ps| - 1].1] else [])
  }

  lemma {:induction false} ModifiersForAppend(a: seq<(StatType, Modifier)>, b: seq<(StatType, Modifier)>, t: StatType)
    ensures ModifiersFor(a + b, t) == ModifiersFor(a, t) + ModifiersFor(b, t)
    decreases |b|
  {
    if b == [] {
      assert a + b == a;
    } else {
      assert (a + b)[..|a + b| - 1] == a + b[..|b| - 1];
      ModifiersForAppend(a, b[..|b| - 1], t);
    }
  }

  /**
   * Poison's start hook: deals `min(health - 1, damagePerTurn)` when that
   * is positive (subject to a block roll), so it never kills.
   */
  method PoisonTurnStart(owner: Entity?, damagePerTurn: int, rng: Rng, cursor: nat) returns (next: nat)
    modifies StatsOf(owner)
    ensures StatsOf(owner) == {} ==> next == cursor
    ensures owner != null && owner.stats != null ==>
              var s := owner.stats;
              var dmg := Min(old(s.currentHealth) - 1, damagePerTurn);
              (dmg <= 0 ==> next == cursor && s.currentHealth == old(s.currentHealth)) &&
              (dmg > 0 ==>
                 (next == cursor + 1 &&
                  s.currentHealth == (if Centile(rng(cursor)) < s.BlockChance() then old(s.currentHealth)
                                      else old(s.currentHealth) - dmg)))
    ensures owner != null && owner.stats != null ==>
              var s := owner.stats;
              s.currentHealth <= old(s.currentHealth) &&
              (old(s.currentHealth) >= 1 ==> s.currentHealth >= 1) &&
              s.maxHealth == old(s.maxHealth) && s.modifiers == old(s.modifiers) &&
              s.baseStats == old(s.baseStats)
  {
    next := cursor;
    if owner == null || owner.stats == null {
      return;
    }
    var s := owner.stats;
    var dmg := Min(s.currentHealth - 1, damagePerTurn);
    if dmg > 0 {
      var _ := s.TakeDamage(dmg, rng(cursor));
      next := cursor + 1;
    }
  }

  /**
   * A stat change's start hook: the first time its owner has stats, adds
   * a modifier of its value for its remaining duration.
   */
  method StatChangeTurnStart(owner: Entity?, e: StatusEffect) returns (r: StatusEffect)
    requires e.behaviour.StatChange?
    modifies StatsOf(owner)
    ensures r == Started(e, StatsOf(owner) != {})
    ensures owner != null && owner.stats != null ==>
              var s := owner.stats;
              (forall t :: s.ModsOf(t) == old(s.ModsOf(t)) + ModifiersFor(AddedBy(e), t)) &&
              s.baseStats == old(s.baseStats) &&
              (e.behaviour.applied ==> s.currentHealth == old(s.currentHealth) && s.maxHealth == old(s.maxHealth)) &&
              (!e.behaviour.applied ==>
                 (s.maxHealth == s.MaxHealthFormula() &&
                  s.currentHealth == Rescaled(old(s.maxHealth), old(s.currentHealth), s.maxHealth)))
  {
    r := e;
    if owner == null || owner.stats == null {
      return;
    }
    var s := owner.stats;
    if !e.behaviour.applied {
      s.AddModifier(e.behaviour.stat, e.behaviour.value, e.duration);
      r := e.(behaviour := e.behaviour.(applied := true));
      forall t ensures s.ModsOf(t) == old(s.ModsOf(t)) + ModifiersFor(AddedBy(e), t) {
        assert AddedBy(e) == [(e.behaviour.stat, Modifier(e.behaviour.value, e.duration))];
        assert ModifiersFor(AddedBy(e), t) == ModifiersFor([], t) +
          (if e.behaviour.stat == t then [Modifier(e.behaviour.value, e.duration)] else []);
      }
    } else {
      forall t ensures s.ModsOf(t) == old(s.ModsOf(t)) + ModifiersFor(AddedBy(e), t) {
        assert AddedBy(e) == [];
      }
    }
  }

  /** One effect's start hook, dispatched on its behaviour; a stun's does nothing. */
  method RunStartHook(owner: Entity?, e: StatusEffect, rng: Rng, cursor: nat) returns (r: StatusEffect, next: nat)
    modifies StatsOf(owner)
    ensures next >= cursor
    ensures r == Started(e, StatsOf(owner) != {})
    ensures owner != null && owner.stats != null ==>
              forall t :: owner.stats.ModsOf(t) == old(owner.stats.ModsOf(t)) + ModifiersFor(AddedBy(e), t)
    ensures owner != null && owner.stats != null && !e.behaviour.StatChange? ==>
              var s := owner.stats;
              s.maxHealth == old(s.maxHealth) && s.currentHealth <= old(s.currentHealth) &&
              (old(s.currentHealth) >= 1 ==> s.currentHealth >= 1)
  {
    r := e;
    next := cursor;
    match e.behaviour {
      case DamageOverTime(dpt) =>
        next := PoisonTurnStart(owner, dpt, rng, cursor);
      case SkipTurn =>
      case StatChange(_, _, _) =>
        r := StatChangeTurnStart(owner, e);
    }
  }

  /** Every effect's start hook, in list order. */
  method RunStartHooks(owner: Entity?, effs: seq<StatusEffect>, rng: Rng, cursor: nat)
    returns (done: seq<StatusEffect>, next: nat)
    modifies StatsOf(owner)
    ensures next >= cursor
    ensures done == StartedAll(effs, StatsOf(owner) != {})
    ensures owner != null && owner.stats != null ==>
              forall t :: owner.stats.ModsOf(t) == old(owner.stats.ModsOf(t)) + ModifiersFor(AddedByAll(effs), t)
    ensures owner != null && owner.stats != null && NoStatChanges(effs) ==>
              var s := owner.stats;
              s.maxHealth == old(s.maxHealth) && s.currentHealth <= old(s.currentHealth) &&
              (old(s.currentHealth) >= 1 ==> s.currentHealth >= 1)
  {
    next := cursor;
    var hasStats := StatsOf(owner) != {};
    done := [];
    var i := 0;
    while i < |effs|
      invariant 0 <= i <= |effs|
      invariant next >= cursor
      invariant done == StartedAll(effs[..i], hasStats)
      invariant owner != null && owner.stats != null ==>
                  forall t :: owner.stats.ModsOf(t) ==
                    old(owner.stats.ModsOf(t)) + ModifiersFor(AddedByAll(effs[..i]), t)
      invariant owner != null && owner.stats != null && NoStatChanges(effs[..i]) ==>
                  owner.stats.maxHealth == old(owner.stats.maxHealth) &&
                  owner.stats.currentHealth <= old(owner.stats.currentHealth) &&
                  (old(owner.stats.currentHealth) >= 1 ==> owner.stats.currentHealth >= 1)
    {
      var e := effs[i];
      assert effs[..i + 1] == effs[..i] + [e];
      assert effs[..i + 1][..i] == effs[..i];
      var r;
      r, next := RunStartHook(owner, e, rng, next);
      if owner != null && owner.stats != null {
        forall t ensures owner.stats.ModsOf(t) ==
                old(owner.stats.ModsOf(t)) + ModifiersFor(AddedByAll(effs[..i + 1]), t) {
          ModifiersForAppend(AddedByAll(effs[..i]), AddedBy(e), t);
        }
      }
      done := done + [r];
      i := i + 1;
    }
    assert effs[..i] == effs;
  }

  class StatusEffectsComponent {
    var owner: Entity?
    var activeEffects: seq<StatusEffect>

    predicate Valid()
      reads this
    {
      UniqueNames(activeEffects)
    }

    /** No owner yet and no effects. */
    constructor()
      ensures owner == null && activeEffects == []
      ensures Valid()
    {
      owner := null;
      activeEffects := [];
    }

    /** Attaching the component records its owner. */
    method OnAttach(e: Entity)
      modifies this`owner
      ensures owner == e
    {
      owner := e;
    }

    /** Index of the first effect with that name, or -1 when there is none. */
    static method FindByName(effs: seq<StatusEffect>, name: string) returns (idx: int)
      ensures -1 <= idx < |effs|
      ensures idx == -1 <==> !HasName(effs, name)
      ensures idx >= 0 ==> effs[idx].name == name && forall j :: 0 <= j < idx ==> effs[j].name != name
    {
      var i := 0;
      while i < |effs|
        invariant 0 <= i <= |effs|
        invariant forall j :: 0 <= j < i ==> effs[j].name != name
      {
        if effs[i].name == name {
          return i;
        }
        i := i + 1;
      }
      return -1;
    }

    /**
     * Adds an effect; one with the same name as an existing effect
     * replaces it in place, and a missing one (`None`) changes nothing.
     */
    method AddEffect(effect: Option<StatusEffect>)
      modifies this`activeEffects
      ensures effect.None? ==> activeEffects == old(activeEffects)
      ensures effect.Some? && HasName(old(activeEffects), effect.value.name) ==>
                exists i :: 0 <= i < |old(activeEffects)| && old(activeEffects)[i].name == effect.value.name &&
                  activeEffects == old(activeEffects)[i := effect.value]
      ensures effect.Some? && !HasName(old(activeEffects), effect.value.name) ==>
                activeEffects == old(activeEffects) + [effect.value]
      ensures effect.Some? ==> HasName(activeEffects, effect.value.name)
      ensures old(Valid()) ==> Valid()
    {
      if effect.None? {
        return;
      }
      var e := effect.value;
      var idx := FindByName(activeEffects, e.name);
      if idx >= 0 {
        var before := activeEffects;
        activeEffects := activeEffects[idx := e];
        assert activeEffects[idx].name == e.name;
        if UniqueNames(before) {
          forall i, j | 0 <= i < j < |activeEffects| ensures activeEffects[i].name != activeEffects[j].name {
            assert i != idx ==> activeEffects[i] == before[i];
            assert j != idx ==> activeEffects[j] == before[j];
          }
        }
      } else {
        if UniqueNames(activeEffects) {
          forall x | x in activeEffects ensures x.name != e.name {
            var i :| 0 <= i < |activeEffects| && activeEffects[i] == x;
          }
          UniqueAppend(activeEffects, e);
        }
        activeEffects := activeEffects + [e];
        assert activeEffects[|activeEffects| - 1].name == e.name;
      }
    }

    /** Removes every effect with that name, keeping the others in order. */
    method RemoveEffect(name: string)
      modifies this`activeEffects
      ensures activeEffects == Without(old(activeEffects), name)
      ensures !HasName(activeEffects, name)
      ensures old(Valid()) ==> Valid()
    {
      var kept: seq<StatusEffect> := [];
      var i := 0;
      while i < |activeEffects|
        invariant 0 <= i <= |activeEffects|
        invariant kept == Without(activeEffects[..i], name)
      {
        assert activeEffects[..i + 1][..i] == activeEffects[..i];
        if activeEffects[i].name != name {
          kept := kept + [activeEffects[i]];
        }
        i := i + 1;
      }
      assert activeEffects[..i] == activeEffects;
      WithoutSound(activeEffects, name);
      activeEffects := kept;
    }

    method ClearEffects()
      modifies this`activeEffects
      ensures activeEffects == []
      ensures Valid()
    {
      activeEffects := [];
    }

    predicate HasEffect(kind: EffectType)
      reads this
    {
      exists i :: 0 <= i < |activeEffects| && activeEffects[i].kind == kind
    }

    predicate HasEffectByName(name: string)
      reads this
    {
      HasName(activeEffects, name)
    }

    /** Drops expired effects, keeping the others in order. */
    method RemoveExpiredEffects()
      modifies this`activeEffects
      ensures activeEffects == Unexpired(old(activeEffects))
      ensures forall i :: 0 <= i < |activeEffects| ==> !HasExpired(activeEffects[i])
      ensures old(Valid()) ==> Valid()
    {
      var kept: seq<StatusEffect> := [];
      var i := 0;
      while i < |activeEffects|
        invariant 0 <= i <= |activeEffects|
        invariant kept == Unexpired(activeEffects[..i])
      {
        assert activeEffects[..i + 1][..i] == activeEffects[..i];
        if !HasExpired(activeEffects[i]) {
          kept := kept + [activeEffects[i]];
        }
        i := i + 1;
      }
      assert activeEffects[..i] == activeEffects;
      UnexpiredMembers(activeEffects);
      if UniqueNames(activeEffects) {
        UnexpiredKeepsUniqueNames(activeEffects);
      }
      activeEffects := kept;
      forall i | 0 <= i < |activeEffects| ensures !HasExpired(activeEffects[i]) {
        assert activeEffects[i] in kept;
      }
    }

    /**
     * Runs every effect's end hook in list order (each counts its duration
     * down), then drops expired effects; an empty list is left alone.
     */
    method ProcessTurnEnd()
      modifies this`activeEffects
      ensures activeEffects == Unexpired(EndedAll(old(activeEffects)))
      ensures old(Valid()) ==> Valid()
    {
      if activeEffects == [] {
        assert EndedAll([]) == [];
        return;
      }
      var done: seq<StatusEffect> := [];
      var i := 0;
      while i < |activeEffects|
        invariant 0 <= i <= |activeEffects|
        invariant done == EndedAll(activeEffects[..i])
      {
        assert activeEffects[..i + 1][..i] == activeEffects[..i];
        done := done + [DecreaseDuration(activeEffects[i])];
        i := i + 1;
      }
      assert activeEffects[..i] == activeEffects;
      EndedAllKeepsNames(activeEffects);
      activeEffects := done;
      RemoveExpiredEffects();
    }

    /**
     * Runs every effect's start hook in list order, then drops expired
     * effects; an empty list is left alone.  Poison hooks draw block rolls
     * from `rng` starting at `cursor`.
     */
    method ProcessTurnStart(rng: Rng, cursor: nat) returns (next: nat)
      modifies this`activeEffects, StatsOf(owner)
      ensures next >= cursor
      ensures activeEffects == Unexpired(StartedAll(old(activeEffects), StatsOf(owner) != {}))
      ensures owner != null && owner.stats != null ==>
                forall t :: owner.stats.ModsOf(t) ==
                  old(owner.stats.ModsOf(t)) + ModifiersFor(AddedByAll(old(activeEffects)), t)
      ensures owner != null && owner.stats != null && NoStatChanges(old(activeEffects)) ==>
                owner.stats.maxHealth == old(owner.stats.maxHealth) &&
                owner.stats.currentHealth <= old(owner.stats.currentHealth) &&
                (old(owner.stats.currentHealth) >= 1 ==> owner.stats.currentHealth >= 1)
      ensures old(Valid()) ==> Valid()
    {
      next := cursor;
      if activeEffects == [] {
        assert StartedAll([], StatsOf(owner) != {}) == [];
        return;
      }
      var effs := activeEffects;
      var o := owner;
      var done;
      done, next := RunStartHooks(o, effs, rng, cursor);
      StartedAllKeepsNames(effs, StatsOf(o) != {});
      activeEffects := done;
      assert o == owner;
      RemoveExpiredEffects();
    }

    /**
     * Whether the owner may act this turn: every effect's veto hook is
     * asked in list order and the first refusal decides.
     */
    method ProcessNewTurn() returns (canAct: bool)
      ensures canAct <==> forall i :: 0 <= i < |activeEffects| ==> AllowsTurn(activeEffects[i])
      ensures canAct <==> !HasEffectOfBehaviour(activeEffects, SkipTurn)
    {
      if activeEffects == [] {
        return true;
      }
      var i := 0;
      while i < |activeEffects|
        invariant 0 <= i <= |activeEffects|
        invariant forall j :: 0 <= j < i ==> AllowsTurn(activeEffects[j])
      {
        if !AllowsTurn(activeEffects[i]) {
          return false;
        }
        i := i + 1;
      }
      return true;
    }
  }

  predicate HasEffectOfBehaviour(effs: seq<StatusEffect>, b: Behaviour)
  {
    exists i :: 0 <= i < |effs| && effs[i].behaviour == b
  }

  /** The list holds no stat change, only poison and stun. */
  predicate NoStatChanges(effs: seq<StatusEffect>)
  {
    forall i :: 0 <= i < |effs| ==> !effs[i].behaviour.StatChange?
  }

  /** Every effect after its end hook. */
  function EndedAll(effs: seq<StatusEffect>): seq<StatusEffect>
  {
    if effs == [] then [] else EndedAll(effs[..|effs| - 1]) + [DecreaseDuration(effs[|effs| - 1])]
  }

  /** Every effect after its start hook. */
  function StartedAll(effs: seq<StatusEffect>, ownerHasStats: bool): seq<StatusEffect>
  {
    if effs == [] then [] else StartedAll(effs[..|effs| - 1], ownerHasStats) + [Started(effs[|effs| - 1], ownerHasStats)]
  }

  lemma {:induction false} EndedAllKeepsNames(effs: seq<StatusEffect>)
    ensures |EndedAll(effs)| == |effs|
    ensures forall i :: 0 <= i < |effs| ==> EndedAll(effs)[i] == DecreaseDuration(effs[i])
    ensures UniqueNames(effs) ==> UniqueNames(EndedAll(effs))
    decreases |effs|
  {
    if effs != [] {
      EndedAllKeepsNames(effs[..|effs| - 1]);
    }
  }

  lemma {:induction false} StartedAllKeepsNames(effs: seq<StatusEffect>, ownerHasStats: bool)
    ensures |StartedAll(effs, ownerHasStats)| == |effs|
    ensures forall i :: 0 <= i < |effs| ==> StartedAll(effs, ownerHasStats)[i] == Started(effs[i], ownerHasStats)
    ensures UniqueNames(effs) ==> UniqueNames(StartedAll(effs, ownerHasStats))
    decreases |effs|
  {
    if effs != [] {
      StartedAllKeepsNames(effs[..|effs| - 1], ownerHasStats);
    }
  }

  /** A stun that has turns left vetoes its owner's turn until its end hooks count it out. */
  lemma StunVetoesUntilExpired(effs: seq<StatusEffect>, d: int)
    requires 0 < d
    ensures HasEffectOfBehaviour(effs + [StunEffect(d)], SkipTurn)
    ensures !HasExpired(StunEffect(d)) && HasExpired(Repeat(StunEffect(d), d))
  {
    var l := effs + [StunEffect(d)];
    assert l[|effs|].behaviour == SkipTurn;
    ExpiresAfterDuration(StunEffect(d), d);
  }
}
