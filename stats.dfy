/**
 * The stats component: seven base attributes, timed modifiers per
 * attribute, and the health pool derived from Constitution.
 */
module Stats {
  import opened Common

  /** The seven attributes a combatant carries. */
  datatype StatType = Strength | Intellect | Speed | Dexterity | Constitution | Defense | Luck

  /** Every attribute once, in declaration order. */
  const AllStats: seq<StatType> := [Strength, Intellect, Speed, Dexterity, Constitution, Defense, Luck]

  /** The display name of an attribute. */
  function StatName(t: StatType): (s: string)
    ensures |s| > 0
  {
    match t
    case Strength => "Strength"
    case Intellect => "Intellect"
    case Speed => "Speed"
    case Dexterity => "Dexterity"
    case Constitution => "Constitution"
    case Defense => "Defense"
    case Luck => "Luck"
  }

  /** Different attributes have different display names. */
  lemma StatNameInjective(a: StatType, b: StatType)
    ensures StatName(a) == StatName(b) ==> a == b
  {
  }

  /**
   * A modifier `(delta, duration)`: `delta` is added to the attribute;
   * a negative duration never expires, otherwise it counts turns left.
   */
  datatype Modifier = Modifier(delta: int, duration: int)

  /** The duration `AddModifier` uses when none is given. */
  const PermanentDuration := -1

  /** Sum of the deltas of a modifier list. */
  function SumDeltas(mods: seq<Modifier>): int
  {
    if mods == [] then 0 else SumDeltas(mods[..|mods| - 1]) + mods[|mods| - 1].delta
  }

  /** What one end-of-turn update does to a single modifier. */
  function TickOne(m: Modifier): seq<Modifier>
  {
    if m.duration < 0 then [m]
    else if m.duration - 1 <= 0 then []
    else [Modifier(m.delta, m.duration - 1)]
  }

  /** One end-of-turn update of a modifier list, in list order. */
  function Tick(mods: seq<Modifier>): seq<Modifier>
  {
    if mods == [] then [] else TickOne(mods[0]) + Tick(mods[1..])
  }

  /** Some modifier of the list runs out at the next update. */
  predicate Expiring(mods: seq<Modifier>)
  {
    exists i :: 0 <= i < |mods| && 0 <= mods[i].duration <= 1
  }

  /** `n` successive updates. */
  function TickN(mods: seq<Modifier>, n: nat): seq<Modifier>
    decreases n
  {
    if n == 0 then mods else TickN(Tick(mods), n - 1)
  }

  lemma {:induction false} SumDeltasAppend(a: seq<Modifier>, b: seq<Modifier>)
    ensures SumDeltas(a + b) == SumDeltas(a) + SumDeltas(b)
    decreases |b|
  {
    if b == [] {
      assert a + b == a;
    } else {
      var b' := b[..|b| - 1];
      assert (a + b)[..|a + b| - 1] == a + b';
      SumDeltasAppend(a, b');
    }
  }

  lemma {:induction false} TickAppend(a: seq<Modifier>, b: seq<Modifier>)
    ensures Tick(a + b) == Tick(a) + Tick(b)
    decreases |a|
  {
    if a == [] {
      assert a + b == b;
    } else {
      assert (a + b)[0] == a[0];
      assert (a + b)[1..] == a[1..] + b;
      TickAppend(a[1..], b);
    }
  }

  /** An update removes an element exactly when one is expiring, and never adds any. */
  lemma {:induction false} TickShrinksIffExpiring(mods: seq<Modifier>)
    ensures |Tick(mods)| <= |mods|
    ensures |Tick(mods)| < |mods| <==> Expiring(mods)
    decreases |mods|
  {
    if mods != [] {
      TickShrinksIffExpiring(mods[1..]);
      if Expiring(mods[1..]) {
        var i :| 0 <= i < |mods[1..]| && 0 <= mods[1..][i].duration <= 1;
        assert mods[i + 1] == mods[1..][i];
      }
      if Expiring(mods) && !(0 <= mods[0].duration <= 1) {
        var i :| 0 <= i < |mods| && 0 <= mods[i].duration <= 1;
        assert mods[1..][i - 1] == mods[i];
      }
    }
  }

  /** Permanent modifiers are never touched by an update. */
  lemma {:induction false} TickKeepsPermanent(mods: seq<Modifier>)
    requires forall i :: 0 <= i < |mods| ==> mods[i].duration < 0
    ensures Tick(mods) == mods
    decreases |mods|
  {
    if mods != [] {
      TickKeepsPermanent(mods[1..]);
      assert mods == [mods[0]] + mods[1..];
    }
  }

  lemma {:induction false} TickNAppend(a: seq<Modifier>, b: seq<Modifier>, n: nat)
    ensures TickN(a + b, n) == TickN(a, n) + TickN(b, n)
    decreases n
  {
    if n > 0 {
      TickAppend(a, b);
      TickNAppend(Tick(a), Tick(b), n - 1);
    }
  }

  lemma {:induction false} TickNEmpty(n: nat)
    ensures TickN([], n) == []
    decreases n
  {
    if n > 0 {
      TickNEmpty(n - 1);
    }
  }

  /** A modifier of duration `d > 0` is still present, with `d - k` turns left, after `k < d` updates. */
  lemma {:induction false} TickNCountsDown(delta: int, d: int, k: nat)
    requires k < d
    ensures TickN([Modifier(delta, d)], k) == [Modifier(delta, d - k)]
    decreases k
  {
    if k > 0 {
      assert [Modifier(delta, d)][1..] == [];
      assert Tick([Modifier(delta, d)]) == [Modifier(delta, d - 1)];
      TickNCountsDown(delta, d - 1, k - 1);
    }
  }

  /**
   * A modifier added with duration `d > 0` is gone after exactly `d`
   * updates, and the rest of the list is as if it had never been added.
   */
  lemma ModifierExpiresAfterDuration(mods: seq<Modifier>, delta: int, d: nat)
    requires d > 0
    ensures TickN([Modifier(delta, d)], d - 1) != []
    ensures TickN(mods + [Modifier(delta, d)], d) == TickN(mods, d)
  {
    TickNCountsDown(delta, d, d - 1);
    TickNAppend(mods, [Modifier(delta, d)], d);
    TickNSplit([Modifier(delta, d)], d - 1);
    assert [Modifier(delta, 1)][1..] == [];
    assert Tick([Modifier(delta, 1)]) == [];
    assert TickN(mods, d) + [] == TickN(mods, d);
  }

  lemma {:induction false} TickNSplit(mods: seq<Modifier>, k: nat)
    ensures TickN(mods, k + 1) == Tick(TickN(mods, k))
    decreases k
  {
    if k > 0 {
      TickNSplit(Tick(mods), k - 1);
    }
  }

  /** The modifier list stored for an attribute; empty when none was stored. */
  function ModsIn(m: map<StatType, seq<Modifier>>, t: StatType): (ms: seq<Modifier>)
    ensures t !in m ==> ms == []
    ensures t in m ==> ms == m[t]
  {
    if t in m then m[t] else []
  }

  /** Some attribute's modifier list has a modifier that runs out at the next update. */
  predicate SomeExpiring(m: map<StatType, seq<Modifier>>)
  {
    exists j :: 0 <= j < |AllStats| && Expiring(ModsIn(m, AllStats[j]))
  }

  /** The position of an attribute in `AllStats`. */
  function StatIndex(t: StatType): (i: nat)
    ensures i < |AllStats| && AllStats[i] == t
  {
    match t
    case Strength => 0
    case Intellect => 1
    case Speed => 2
    case Dexterity => 3
    case Constitution => 4
    case Defense => 5
    case Luck => 6
  }

  /** `StatIndex` inverts indexing into `AllStats`, so its entries are distinct. */
  lemma AllStatsIndexed()
    ensures forall j :: 0 <= j < |AllStats| ==> StatIndex(AllStats[j]) == j
  {
  }

  /** Base stat map of a freshly built component: every attribute at zero. */
  function ZeroStats(): map<StatType, int>
  {
    map[Strength := 0, Intellect := 0, Speed := 0, Dexterity := 0,
        Constitution := 0, Defense := 0, Luck := 0]
  }

  /**
   * Current health after the maximum changes from `oldMax` to `newMax`:
   * kept in proportion when the old maximum was positive and changed,
   * then capped at the new maximum.
   */
  function Rescaled(oldMax: int, cur: int, newMax: int): (r: int)
    ensures r <= newMax
    ensures oldMax == newMax ==> r == Min(cur, newMax)
  {
    var c := if oldMax > 0 && newMax != oldMax then TruncDiv(newMax * cur, oldMax) else cur;
    Min(c, newMax)
  }

  /** A valid health value stays valid: `0 <= cur` and `0 <= newMax` give `0 <= r <= newMax`. */
  lemma RescaledInRange(oldMax: int, cur: int, newMax: int)
    requires 0 <= cur && 0 <= newMax
    ensures 0 <= Rescaled(oldMax, cur, newMax) <= newMax
  {
    if oldMax > 0 && newMax != oldMax {
      assert newMax * cur >= 0;
    }
  }

  /** Full health stays full when the maximum changes. */
  lemma RescaledKeepsFull(oldMax: int, newMax: int)
    requires oldMax > 0 && newMax >= 0
    ensures Rescaled(oldMax, oldMax, newMax) == newMax
  {
    if newMax != oldMax {
      MulDivCancel(newMax, oldMax);
    }
  }

  class StatsComponent {
    var baseStats: map<StatType, int>
    var modifiers: map<StatType, seq<Modifier>>
    var maxHealth: int
    var currentHealth: int

    /** Every attribute at zero, no modifiers, no health. */
    constructor()
      ensures baseStats == ZeroStats() && modifiers == map[]
      ensures maxHealth == 0 && currentHealth == 0
    {
      baseStats := ZeroStats();
      modifiers := map[];
      maxHealth := 0;
      currentHealth := 0;
    }

    /** The base value of an attribute; zero when none was stored. */
    function BaseStat(t: StatType): (v: int)
      reads this
      ensures t !in baseStats ==> v == 0
      ensures t in baseStats ==> v == baseStats[t]
    {
      if t in baseStats then baseStats[t] else 0
    }

    /** The modifier list of an attribute; empty when none was stored. */
    function ModsOf(t: StatType): seq<Modifier>
      reads this
    {
      ModsIn(modifiers, t)
    }

    /** Base value plus every modifier's delta. */
    function CurrentStat(t: StatType): int
      reads this
    {
      BaseStat(t) + SumDeltas(ModsOf(t))
    }

    /** Ten plus five per point of current Constitution. */
    function MaxHealthFormula(): int
      reads this
    {
      10 + 5 * CurrentStat(Constitution)
    }

    /** Twice current Dexterity, at most 40 (percent). */
    function DodgeChance(): int
      reads this
    {
      Min(40, CurrentStat(Dexterity) * 2)
    }

    /** Three times current Defense, at most 50 (percent). */
    function BlockChance(): int
      reads this
    {
      Min(50, CurrentStat(Defense) * 3)
    }

    /** Twice current Luck, at most 30 (percent). */
    function CriticalChance(): int
      reads this
    {
      Min(30, CurrentStat(Luck) * 2)
    }

    /**
     * The derived chances respect their caps, reach them once the
     * attribute is high enough, grow with the attribute below the cap,
     * and are never negative while the attribute is not.
     */
    lemma DerivedChancesCapped()
      ensures DodgeChance() <= 40 && BlockChance() <= 50 && CriticalChance() <= 30
      ensures CurrentStat(Dexterity) < 20 ==> DodgeChance() == 2 * CurrentStat(Dexterity)
      ensures CurrentStat(Defense) < 17 ==> BlockChance() == 3 * CurrentStat(Defense)
      ensures CurrentStat(Luck) < 15 ==> CriticalChance() == 2 * CurrentStat(Luck)
      ensures CurrentStat(Dexterity) >= 20 ==> DodgeChance() == 40
      ensures CurrentStat(Defense) >= 17 ==> BlockChance() == 50
      ensures CurrentStat(Luck) >= 15 ==> CriticalChance() == 30
      ensures CurrentStat(Dexterity) >= 0 <==> DodgeChance() >= 0
      ensures CurrentStat(Defense) >= 0 <==> BlockChance() >= 0
      ensures CurrentStat(Luck) >= 0 <==> CriticalChance() >= 0
    {
    }

    /** An entity is dead once its health reaches zero or below. */
    predicate IsDead()
      reads this
    {
      currentHealth <= 0
    }

    /** Health inside `0..maxHealth`. */
    predicate HealthInRange()
      reads this
    {
      0 <= currentHealth <= maxHealth
    }

    /** Base value plus the sum of the modifier list, summed by a loop. */
    method GetCurrentStat(t: StatType) returns (v: int)
      ensures v == CurrentStat(t)
    {
      var base := BaseStat(t);
      var total := 0;
      var mods := ModsOf(t);
      var i := 0;
      while i < |mods|
        invariant 0 <= i <= |mods|
        invariant total == SumDeltas(mods[..i])
      {
        assert mods[..i + 1][..i] == mods[..i];
        total := total + mods[i].delta;
        i := i + 1;
      }
      assert mods[..|mods|] == mods;
      v := base + total;
    }

    /**
     * Recomputes the maximum from Constitution and carries current health
     * over in proportion, never above the new maximum.
     */
    method RecalculateDerivedStats()
      modifies this`maxHealth, this`currentHealth
      ensures maxHealth == MaxHealthFormula()
      ensures currentHealth == Rescaled(old(maxHealth), old(currentHealth), maxHealth)
      ensures currentHealth <= maxHealth
    {
      var oldMax := maxHealth;
      var con := GetCurrentStat(Constitution);
      maxHealth := 10 + con * 5;
      if oldMax > 0 && maxHealth != oldMax {
        currentHealth := TruncDiv(maxHealth * currentHealth, oldMax);
      }
      if currentHealth > maxHealth {
        currentHealth := maxHealth;
      }
    }

    /** Sets all seven attributes, recomputes the maximum and starts at full health. */
    method Initialize(str: int, intel: int, spd: int, dex: int, con: int, def: int, lck: int)
      modifies this`baseStats, this`maxHealth, this`currentHealth
      ensures baseStats == map[Strength := str, Intellect := intel, Speed := spd, Dexterity := dex,
                               Constitution := con, Defense := def, Luck := lck]
      ensures maxHealth == MaxHealthFormula()
      ensures currentHealth == maxHealth
    {
      baseStats := map[Strength := str, Intellect := intel, Speed := spd, Dexterity := dex,
                       Constitution := con, Defense := def, Luck := lck];
      RecalculateDerivedStats();
      currentHealth := maxHealth;
    }

    /** Overwrites one base value and recomputes health. */
    method SetBaseStat(t: StatType, value: int)
      modifies this`baseStats, this`maxHealth, this`currentHealth
      ensures baseStats == old(baseStats)[t := value]
      ensures CurrentStat(t) == value + SumDeltas(ModsOf(t))
      ensures maxHealth == MaxHealthFormula()
      ensures currentHealth == Rescaled(old(maxHealth), old(currentHealth), maxHealth)
    {
      baseStats := baseStats[t := value];
      RecalculateDerivedStats();
    }

    /** Appends a modifier to the attribute's list (permanent by default) and recomputes health. */
    method AddModifier(t: StatType, value: int, duration: int := PermanentDuration)
      modifies this`modifiers, this`maxHealth, this`currentHealth
      ensures modifiers == old(modifiers)[t := old(ModsOf(t)) + [Modifier(value, duration)]]
      ensures CurrentStat(t) == old(CurrentStat(t)) + value
      ensures forall u :: u != t ==> CurrentStat(u) == old(CurrentStat(u))
      ensures maxHealth == MaxHealthFormula()
      ensures currentHealth == Rescaled(old(maxHealth), old(currentHealth), maxHealth)
    {
      SumDeltasAppend(ModsOf(t), [Modifier(value, duration)]);
      modifiers := modifiers[t := ModsOf(t) + [Modifier(value, duration)]];
      RecalculateDerivedStats();
    }

    /** Drops every modifier: each attribute is back at its base value. */
    method ClearModifiers()
      modifies this`modifiers, this`maxHealth, this`currentHealth
      ensures modifiers == map[]
      ensures forall u :: CurrentStat(u) == BaseStat(u)
      ensures maxHealth == 10 + 5 * BaseStat(Constitution)
      ensures currentHealth == Rescaled(old(maxHealth), old(currentHealth), maxHealth)
    {
      modifiers := map[];
      RecalculateDerivedStats();
    }

    /**
     * The end-of-turn update of every modifier list; health is recomputed
     * only when some modifier ran out.
     */
    method UpdateModifiers()
      modifies this`modifiers, this`maxHealth, this`currentHealth
      ensures modifiers.Keys == old(modifiers).Keys
      ensures forall t :: ModsIn(modifiers, t) == Tick(ModsIn(old(modifiers), t))
      ensures SomeExpiring(old(modifiers)) ==>
                maxHealth == MaxHealthFormula() &&
                currentHealth == Rescaled(old(maxHealth), old(currentHealth), maxHealth)
      ensures !SomeExpiring(old(modifiers)) ==>
                maxHealth == old(maxHealth) && currentHealth == old(currentHealth)
    {
      var m, changed := UpdateAllLists(modifiers);
      modifiers := m;
      if changed {
        RecalculateDerivedStats();
      }
    }

    /** Every attribute's list updated in turn; reports whether anything ran out. */
    static method UpdateAllLists(m0: map<StatType, seq<Modifier>>)
      returns (m: map<StatType, seq<Modifier>>, changed: bool)
      ensures m.Keys == m0.Keys
      ensures forall t :: ModsIn(m, t) == Tick(ModsIn(m0, t))
      ensures changed <==> SomeExpiring(m0)
    {
      m := m0;
      changed := false;
      AllStatsIndexed();
      var k := 0;
      while k < |AllStats|
        invariant 0 <= k <= |AllStats|
        invariant m.Keys == m0.Keys
        invariant forall j :: 0 <= j < k ==> ModsIn(m, AllStats[j]) == Tick(ModsIn(m0, AllStats[j]))
        invariant forall j :: k <= j < |AllStats| ==> ModsIn(m, AllStats[j]) == ModsIn(m0, AllStats[j])
        invariant changed <==> exists j :: 0 <= j < k && Expiring(ModsIn(m0, AllStats[j]))
      {
        var t := AllStats[k];
        if t in m {
          var updated, removed := UpdateList(m[t]);
          m := m[t := updated];
          changed := changed || removed;
        } else {
          assert !Expiring(ModsIn(m0, t));
        }
        k := k + 1;
      }
      forall t ensures ModsIn(m, t) == Tick(ModsIn(m0, t)) {
        assert AllStats[StatIndex(t)] == t;
      }
    }

    /**
     * One modifier list updated back to front: permanent ones are skipped,
     * others lose a turn and are erased once they reach zero.
     */
    static method UpdateList(mods: seq<Modifier>) returns (r: seq<Modifier>, removed: bool)
      ensures r == Tick(mods)
      ensures removed <==> Expiring(mods)
    {
      r := mods;
      removed := false;
      var i := |mods| - 1;
      while i >= 0
        invariant -1 <= i < |mods|
        invariant r == mods[..i + 1] + Tick(mods[i + 1..])
        invariant removed <==> exists j :: i < j < |mods| && 0 <= mods[j].duration <= 1
      {
        UpdateStep(mods, r, i);
        var kept: seq<Modifier> := [r[i]];
        if r[i].duration >= 0 {
          var m := Modifier(r[i].delta, r[i].duration - 1);
          if m.duration <= 0 {
            kept := [];
            removed := true;
          } else {
            kept := [m];
          }
        }
        assert kept == TickOne(mods[i]);
        r := r[..i] + kept + r[i + 1..];
        i := i - 1;
      }
      assert mods[..0] == [];
      assert mods[0..] == mods;
    }

    /** How one back-to-front step of `UpdateList` splits the partly updated list. */
    static lemma UpdateStep(mods: seq<Modifier>, r: seq<Modifier>, i: int)
      requires 0 <= i < |mods|
      requires r == mods[..i + 1] + Tick(mods[i + 1..])
      ensures r[..i] == mods[..i] && r[i] == mods[i] && r[i + 1..] == Tick(mods[i + 1..])
      ensures mods[..i] + Tick(mods[i..]) == r[..i] + TickOne(r[i]) + r[i + 1..]
    {
      assert mods[i..] == [mods[i]] + mods[i + 1..];
      assert Tick(mods[i..]) == TickOne(mods[i]) + Tick(mods[i + 1..]);
      assert mods[..i + 1] == mods[..i] + [mods[i]];
    }

    /**
     * Takes a hit unless the block roll `rand() % 100` falls below the
     * block chance; health never drops below zero.  Returns whether the
     * entity is now dead.
     */
    method TakeDamage(damage: int, draw: nat) returns (dead: bool)
      modifies this`currentHealth
      ensures Centile(draw) < BlockChance() ==> !dead && currentHealth == old(currentHealth)
      ensures Centile(draw) >= BlockChance() ==>
                currentHealth == Max(0, old(currentHealth) - damage) && (dead <==> IsDead())
      ensures currentHealth >= 0 || currentHealth == old(currentHealth)
    {
      if Centile(draw) < BlockChance() {
        return false;
      }
      currentHealth := Max(0, currentHealth - damage);
      dead := currentHealth <= 0;
    }

    /** Sets health, never above the maximum. */
    method SetCurrentHealth(health: int)
      modifies this`currentHealth
      ensures currentHealth == Min(health, maxHealth)
      ensures currentHealth <= maxHealth
    {
      currentHealth := Min(health, maxHealth);
    }

    /** Adds `amount` to health, never above the maximum. */
    method Heal(amount: int)
      modifies this`currentHealth
      ensures currentHealth == Min(old(currentHealth) + amount, maxHealth)
      ensures amount >= 0 && old(HealthInRange()) ==> HealthInRange()
    {
      currentHealth := Min(currentHealth + amount, maxHealth);
    }
  }
}
