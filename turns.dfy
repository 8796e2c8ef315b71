/**
 * The turn manager: a priority queue of turns keyed by Speed, the
 * entity currently acting, the roster of a round and the round counter.
 * The standard library's heap is modelled as a sequence whose top is its
 * first element of maximal initiative.
 */
module Turns {
  import opened Common
  import opened Stats
  import opened Entities
  import opened Battlefields

  /** A queued turn: the entity and its initiative (its Speed when queued). */
  datatype Turn = Turn(entity: Entity, initiative: int)

  /** The queue's comparator: a turn sorts below another exactly when its initiative is lower. */
  predicate TurnLess(a: Turn, b: Turn)
  {
    a.initiative < b.initiative
  }

  /** The comparator is a strict order in which turns of equal initiative are incomparable. */
  lemma TurnLessIsStrictWeakOrder(a: Turn, b: Turn, c: Turn)
    ensures !TurnLess(a, a)
    ensures TurnLess(a, b) && TurnLess(b, c) ==> TurnLess(a, c)
    ensures !TurnLess(a, b) && !TurnLess(b, a) <==> a.initiative == b.initiative
    ensures TurnLess(a, b) ==> !TurnLess(b, a)
  {
  }

  /** The index of the heap's top: the first turn of maximal initiative. */
  function TopIndex(q: seq<Turn>): (i: nat)
    requires q != []
    ensures i < |q|
    ensures forall j :: 0 <= j < |q| ==> q[j].initiative <= q[i].initiative
    ensures forall j :: 0 <= j < i ==> q[j].initiative < q[i].initiative
    decreases |q|
  {
    if |q| == 1 then 0
    else
      var k := TopIndex(q[..|q| - 1]);
      if q[k].initiative < q[|q| - 1].initiative then |q| - 1 else k
  }

  /** The turn `top()` returns. */
  function Top(q: seq<Turn>): Turn
    requires q != []
  {
    q[TopIndex(q)]
  }

  /** The queue after `pop()`. */
  function Popped(q: seq<Turn>): (r: seq<Turn>)
    requires q != []
    ensures |r| == |q| - 1
  {
    q[..TopIndex(q)] + q[TopIndex(q) + 1..]
  }

  /** Popping removes exactly the top, which no queued turn outranks. */
  lemma PopRemovesTop(q: seq<Turn>)
    requires q != []
    ensures multiset(Popped(q)) + multiset{Top(q)} == multiset(q)
    ensures |Popped(q)| == |q| - 1
    ensures forall t :: t in q ==> t.initiative <= Top(q).initiative
  {
    var i := TopIndex(q);
    assert q == q[..i] + [q[i]] + q[i + 1..];
  }

  /** The turns in the order successive pops yield them. */
  function Drain(q: seq<Turn>): seq<Turn>
    decreases |q|
  {
    if q == [] then [] else [Top(q)] + Drain(Popped(q))
  }

  /** Draining yields every queued turn once. */
  lemma {:induction false} DrainPermutes(q: seq<Turn>)
    ensures multiset(Drain(q)) == multiset(q)
    decreases |q|
  {
    if q != [] {
      PopRemovesTop(q);
      DrainPermutes(Popped(q));
    }
  }

  /** No turn drained after the top outranks it. */
  lemma TopOutranksDrain(q: seq<Turn>)
    requires q != []
    ensures forall j :: 0 <= j < |Drain(Popped(q))| ==> Drain(Popped(q))[j].initiative <= Top(q).initiative
  {
    var rest := Drain(Popped(q));
    PopRemovesTop(q);
    DrainPermutes(Popped(q));
    forall j | 0 <= j < |rest| ensures rest[j].initiative <= Top(q).initiative {
      assert rest[j] in multiset(rest);
      assert rest[j] in multiset(q);
    }
  }

  /** Draining yields the turns in non-increasing initiative. */
  lemma {:induction false} DrainSorted(q: seq<Turn>)
    ensures forall i, j :: 0 <= i < j < |Drain(q)| ==> Drain(q)[i].initiative >= Drain(q)[j].initiative
    decreases |q|
  {
    if q != [] {
      var rest := Drain(Popped(q));
      DrainSorted(Popped(q));
      TopOutranksDrain(q);
      forall i, j | 0 <= i < j < |Drain(q)| ensures Drain(q)[i].initiative >= Drain(q)[j].initiative {
        if i > 0 {
          assert Drain(q)[i] == rest[i - 1] && Drain(q)[j] == rest[j - 1];
        } else {
          assert Drain(q)[j] == rest[j - 1];
        }
      }
    }
  }

  /** The entities of a list of turns, in order. */
  function EntitiesOf(ts: seq<Turn>): (es: seq<Entity>)
    ensures |es| == |ts| && forall i :: 0 <= i < |ts| ==> es[i] == ts[i].entity
    decreases |ts|
  {
    if ts == [] then [] else EntitiesOf(ts[..|ts| - 1]) + [ts[|ts| - 1].entity]
  }

  /** The stats components of a list of entities. */
  function Frame(es: seq<Entity?>): set<StatsComponent>
  {
    set i | 0 <= i < |es| && es[i] != null && es[i].stats != null :: es[i].stats
  }

  /** An entity that takes turns: present, with stats, not dead. */
  predicate Eligible(e: Entity?)
    reads StatsOf(e)
  {
    e != null && e.stats != null && !e.stats.IsDead()
  }

  /** The turn an eligible entity is queued with: its current Speed. */
  function TurnOf(e: Entity): Turn
    requires e.stats != null
    reads e.stats
  {
    Turn(e, e.stats.CurrentStat(Speed))
  }

  /** The turns queued for a list of entities: one per eligible entity, in list order. */
  function TurnsFor(es: seq<Entity?>): seq<Turn>
    reads Frame(es)
    decreases |es|
  {
    if es == [] then []
    else
      var last := es[|es| - 1];
      assert Frame(es[..|es| - 1]) <= Frame(es) by {
        forall i | 0 <= i < |es| - 1 ensures es[..|es| - 1][i] == es[i] { }
      }
      TurnsFor(es[..|es| - 1]) + (if Eligible(last) then [TurnOf(last)] else [])
  }

  /** Exactly the eligible entities are queued, each with its current Speed. */
  lemma {:induction false} TurnsForSound(es: seq<Entity?>)
    ensures forall t :: t in TurnsFor(es) ==> t.entity in es && Eligible(t.entity) && t == TurnOf(t.entity)
    ensures forall e :: e in es && Eligible(e) ==> e != null && TurnOf(e) in TurnsFor(es)
    decreases |es|
  {
    if es != [] {
      var init := es[..|es| - 1];
      TurnsForSound(init);
      assert es == init + [es[|es| - 1]];
      forall e | e in es && Eligible(e) ensures e != null && TurnOf(e) in TurnsFor(es) {
        if e !in init {
          assert e == es[|es| - 1];
        }
      }
    }
  }

  /** The round's roster: the eligible entities in list order. */
  function Living(es: seq<Entity?>): seq<Entity>
    reads Frame(es)
  {
    EntitiesOf(TurnsFor(es))
  }

  /** No entity in the list is alive with stats. */
  predicate NoneAlive(es: seq<Entity?>)
    reads Frame(es)
  {
    forall i :: 0 <= i < |es| ==> !Eligible(es[i])
  }

  /** Present, with stats, and dead. */
  predicate Died(e: Entity?)
    reads StatsOf(e)
  {
    e != null && e.stats != null && e.stats.IsDead()
  }

  /** The first occurrence of `e` removed, as `std::find` then `erase` do; unchanged when absent. */
  function RemoveFirst(s: seq<Entity>, e: Entity): (r: seq<Entity>)
  {
    var k := IndexOf(s, e);
    if k == -1 then s else s[..k] + s[k + 1..]
  }

  /** Removing the first occurrence takes exactly one copy out, and none when there is none. */
  lemma RemoveFirstCount(s: seq<Entity>, e: Entity)
    ensures e in s ==> multiset(RemoveFirst(s, e)) == multiset(s) - multiset{e}
    ensures e !in s ==> RemoveFirst(s, e) == s
  {
    var k := IndexOf(s, e);
    if k != -1 {
      assert s == s[..k] + [s[k]] + s[k + 1..];
    }
  }

  class TurnManager {
    /** The pending turns of the round. */
    var queue: seq<Turn>
    /** The entity taking its turn, if any. */
    var current: Entity?
    /** The entities of the current combat still taking part, in queueing order. */
    var roster: seq<Entity>
    var round: int

    /** No turns, nobody acting, round 0. */
    constructor()
      ensures queue == [] && current == null && roster == [] && round == 0
    {
      queue := [];
      current := null;
      roster := [];
      round := 0;
    }

    /**
     * Starts round 1: queues every eligible entity with its Speed, records
     * them as the roster and makes the fastest the current entity.
     */
    method Initialize(es: seq<Entity?>)
      modifies this
      ensures round == 1
      ensures roster == Living(es)
      ensures TurnsFor(es) == [] ==> current == null && queue == []
      ensures TurnsFor(es) != [] ==> current == Top(TurnsFor(es)).entity && queue == Popped(TurnsFor(es))
    {
      var q: seq<Turn> := [];
      var r: seq<Entity> := [];
      var i := 0;
      while i < |es|
        invariant 0 <= i <= |es|
        invariant q == TurnsFor(es[..i])
        invariant r == EntitiesOf(q)
      {
        assert es[..i + 1][..i] == es[..i];
        var e := es[i];
        if e != null && e.stats != null {
          if !e.stats.IsDead() {
            var speed := e.stats.CurrentStat(Speed);
            q := q + [Turn(e, speed)];
            r := r + [e];
          }
        }
        i := i + 1;
      }
      assert es[..|es|] == es;
      // The manager holds none of the stats the roster was read from.
      assert forall o :: o in Frame(es) ==> o as object != this;
      roster := r;
      current := null;
      round := 1;
      if q != [] {
        var next := Top(q);
        q := Popped(q);
        current := next.entity;
      }
      queue := q;
    }

    /**
     * With nobody acting, pops the top turn and makes its entity current;
     * a pop that empties the queue starts the next round.  Returns the
     * current entity.
     */
    method GetNextEntity() returns (e: Entity?)
      modifies this
      ensures e == current && roster == old(roster)
      ensures old(current) != null || old(queue) == [] ==>
                current == old(current) && queue == old(queue) && round == old(round)
      ensures old(current) == null && old(queue) != [] ==>
                current == Top(old(queue)).entity &&
                (Popped(old(queue)) != [] ==> queue == Popped(old(queue)) && round == old(round)) &&
                (Popped(old(queue)) == [] ==> queue == TurnsFor(roster) && round == old(round) + 1)
    {
      if current == null && queue != [] {
        var next := Top(queue);
        queue := Popped(queue);
        current := next.entity;
        if queue == [] {
          PrepareNextRound();
        }
      }
      e := current;
    }

    /** Advances the round and queues again every roster entity still alive. */
    method PrepareNextRound()
      modifies this`round, this`queue
      ensures round == old(round) + 1
      ensures queue == old(queue) + TurnsFor(roster)
    {
      round := round + 1;
      assert forall o :: o in Frame(roster) ==> o as object != this;
      var q := queue;
      var i := 0;
      while i < |roster|
        invariant 0 <= i <= |roster|
        invariant q == old(queue) + TurnsFor(roster[..i])
      {
        assert roster[..i + 1][..i] == roster[..i];
        var e := roster[i];
        if e.stats != null && !e.stats.IsDead() {
          var speed := e.stats.CurrentStat(Speed);
          q := q + [Turn(e, speed)];
        }
        i := i + 1;
      }
      assert roster[..|roster|] == roster;
      queue := q;
    }

    /**
     * What ending a turn leaves behind, given whether the entity that
     * acted has died: with nobody acting nothing changes; otherwise a dead
     * actor leaves the roster, the actor is cleared and the next queued
     * turn, if any, becomes current, the queue being refilled from the
     * roster (and the round advanced) when that pop empties it.
     */
    twostate predicate Passed(dead: bool)
      reads this, Frame(roster)
    {
      Follows(old(current), old(queue), old(roster), old(round), dead)
    }

    /**
     * `Passed` with the state before the turn ended given as values: the
     * entity that was on turn, the queue, the roster and the round.
     */
    predicate Follows(was: Entity?, q: seq<Turn>, r: seq<Entity>, n: int, dead: bool)
      reads this, Frame(roster)
    {
      (was == null ==> current == null && queue == q && roster == r && round == n) &&
      (was != null ==> roster == (if dead then RemoveFirst(r, was) else r)) &&
      (was != null && q == [] ==> current == null && queue == [] && round == n) &&
      (was != null && q != [] ==>
         current == Top(q).entity &&
         (Popped(q) != [] ==> queue == Popped(q) && round == n) &&
         (Popped(q) == [] ==> queue == TurnsFor(roster) && round == n + 1))
    }

    /**
     * Ends the current turn: a dead current entity leaves the roster, the
     * current entity is cleared, and the next one is fetched.
     */
    method EndTurn()
      modifies this
      ensures Passed(Died(old(current)))
    {
      if current == null {
        return;
      }
      if current.stats != null {
        if current.stats.IsDead() {
          roster := RemoveFirst(roster, current);
        }
      }
      current := null;
      var _ := GetNextEntity();
    }

    /**
     * Combat is over on a battlefield when one side's tiles hold no
     * living entity with stats; an empty side counts as defeated.  No
     * battlefield means no verdict.
     */
    method IsCombatOver(bf: Battlefield?) returns (over: bool)
      requires bf != null ==> bf.Valid()
      ensures over <==> bf != null && (NoneAlive(bf.Occupants(0, 4)) || NoneAlive(bf.Occupants(4, MaxTiles)))
    {
      if bf == null {
        return false;
      }
      var players := bf.GetPlayerSideEntities();
      var enemies := bf.GetEnemySideEntities();
      assert players == bf.Occupants(0, 4);
      var playersDefeated := true;
      var i := 0;
      while i < |players| && playersDefeated
        invariant 0 <= i <= |players|
        invariant playersDefeated <==> forall j :: 0 <= j < i ==> !Eligible(players[j])
      {
        var e := players[i];
        if e.stats != null && !e.stats.IsDead() {
          playersDefeated := false;
        }
        i := i + 1;
      }
      var enemiesDefeated := true;
      i := 0;
      while i < |enemies| && enemiesDefeated
        invariant 0 <= i <= |enemies|
        invariant enemiesDefeated <==> forall j :: 0 <= j < i ==> !Eligible(enemies[j])
      {
        var e := enemies[i];
        if e.stats != null && !e.stats.IsDead() {
          enemiesDefeated := false;
        }
        i := i + 1;
      }
      over := playersDefeated || enemiesDefeated;
    }

    /** Empties the queue and the roster, clears the current entity and returns to round 0. */
    method Reset()
      modifies this
      ensures queue == [] && current == null && roster == [] && round == 0
    {
      queue := [];
      roster := [];
      current := null;
      round := 0;
    }

    /** The acting entity first, then the queued ones in the order they would be popped. */
    method GetTurnOrder() returns (order: seq<Entity>)
      ensures order == (if current != null then [current] else []) + EntitiesOf(Drain(queue))
    {
      var names: seq<Entity> := [];
      ghost var popped: seq<Turn> := [];
      var copy := queue;
      while copy != []
        invariant popped + Drain(copy) == Drain(queue)
        invariant names == EntitiesOf(popped)
        decreases |copy|
      {
        var t := Top(copy);
        PopExtends(popped, copy);
        EntitiesOfSnoc(popped, t);
        popped := popped + [t];
        names := names + [t.entity];
        copy := Popped(copy);
      }
      order := (if current != null then [current] else []) + names;
    }
  }

  /** One more pop moves the top from the remaining drain to the popped prefix. */
  lemma PopExtends(popped: seq<Turn>, q: seq<Turn>)
    requires q != []
    ensures popped + Drain(q) == popped + [Top(q)] + Drain(Popped(q))
  {
    var rest := Drain(Popped(q));
    assert popped + ([Top(q)] + rest) == popped + [Top(q)] + rest;
  }

  /** The entities of one more turn. */
  lemma EntitiesOfSnoc(ts: seq<Turn>, t: Turn)
    ensures EntitiesOf(ts + [t]) == EntitiesOf(ts) + [t.entity]
  {
    assert (ts + [t])[..|ts|] == ts;
  }

  /** The order `GetTurnOrder` reports lists queued turns by non-increasing initiative, each once. */
  lemma TurnOrderSorted(q: seq<Turn>)
    ensures forall i, j :: 0 <= i < j < |Drain(q)| ==> Drain(q)[i].initiative >= Drain(q)[j].initiative
    ensures multiset(Drain(q)) == multiset(q)
  {
    DrainSorted(q);
    DrainPermutes(q);
  }

  /**
   * Right after `Initialize`, the current entity followed by the queue in
   * pop order is the full drain of the initial queue: the current entity
   * has the highest Speed and the rest follow by non-increasing Speed.
   */
  lemma InitialOrder(es: seq<Entity?>)
    requires TurnsFor(es) != []
    ensures [Top(TurnsFor(es))] + Drain(Popped(TurnsFor(es))) == Drain(TurnsFor(es))
    ensures forall t :: t in TurnsFor(es) ==> t.initiative <= Top(TurnsFor(es)).initiative
  {
    PopRemovesTop(TurnsFor(es));
  }

  /** On a coherent battlefield a side is defeated exactly when no entity placed there is eligible. */
  lemma SideDefeatedByComponents(bf: Battlefield, lo: int, hi: int)
    requires bf.Coherent() && 0 <= lo <= hi <= MaxTiles
    ensures NoneAlive(bf.Occupants(lo, hi)) <==>
              forall e :: e in bf.entities && bf.OnSide(e, lo, hi) ==> !Eligible(e)
  {
    var occ := bf.Occupants(lo, hi);
    bf.OccupantsExact(lo, hi);
    forall e | e in bf.entities
      ensures bf.OnSide(e, lo, hi) <==> e in occ
    {
      bf.SideAgreesWithSlots(e, lo, hi);
    }
    if !NoneAlive(occ) {
      var i :| 0 <= i < |occ| && Eligible(occ[i]);
      assert occ[i] in occ;
      var p :| lo <= p < hi && bf.GetEntityAtPosition(p) == occ[i];
      assert occ[i] in bf.entities;
    }
  }
}
