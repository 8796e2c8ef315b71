/**
 * The battlefield: a line of eight tiles, the first four the player's
 * side and the last four the enemy's.  A slot table maps each tile to
 * the index of its occupant in the list of placed entities, or -1.
 */
module Battlefields {
  import opened Common
  import opened Positions
  import opened Entities

  const MaxTiles := 8
  const Empty := -1

  /** A tile of the battlefield. */
  predicate IsValidPosition(p: int)
  {
    0 <= p < MaxTiles
  }

  /** Tile distance, or -1 when either tile is off the battlefield. */
  function GetDistance(a: int, b: int): (d: int)
    ensures d == -1 <==> !IsValidPosition(a) || !IsValidPosition(b)
    ensures d != -1 ==> 0 <= d < MaxTiles && (d == 0 <==> a == b)
  {
    if !IsValidPosition(a) || !IsValidPosition(b) then -1 else Abs(a - b)
  }

  lemma GetDistanceSymmetric(a: int, b: int)
    ensures GetDistance(a, b) == GetDistance(b, a)
  {
  }

  /** The first index of `e` in `es`, or -1. */
  function IndexOf(es: seq<Entity>, e: Entity?): (k: int)
    ensures -1 <= k < |es|
    ensures k == -1 <==> e !in es
    ensures k >= 0 ==> es[k] == e && forall j :: 0 <= j < k ==> es[j] != e
    decreases |es|
  {
    if es == [] then -1
    else if es[|es| - 1] == e && IndexOf(es[..|es| - 1], e) == -1 then |es| - 1
    else if IndexOf(es[..|es| - 1], e) == -1 then -1
    else IndexOf(es[..|es| - 1], e)
  }

  class Battlefield {
    /** Occupant index per tile, `Empty` for a free tile. */
    const positions: array<int>
    /** Every entity ever placed since the last clear, in placement order. */
    var entities: seq<Entity>

    /** The slot table has eight tiles, each free or holding an index of a placed entity. */
    predicate Valid()
      reads this, positions
    {
      positions.Length == MaxTiles &&
      forall p :: 0 <= p < MaxTiles ==> Empty <= positions[p] < |entities|
    }

    /** The position components of the placed entities. */
    function Components(): set<PositionComponent?>
      reads this, entities
    {
      set k | 0 <= k < |entities| :: entities[k].position
    }

    /**
     * Slot table and components agree: each placed entity's component
     * names a tile whose slot holds that entity, and each occupied slot's
     * entity reads that tile.
     */
    predicate Coherent()
      reads this, positions, entities, Components()
    {
      Valid() &&
      (forall k :: 0 <= k < |entities| ==>
         entities[k].position != null && IsValidPosition(entities[k].position.position) &&
         positions[entities[k].position.position] == k) &&
      (forall p :: 0 <= p < MaxTiles && positions[p] != Empty ==>
         entities[positions[p]].position != null && entities[positions[p]].position.position == p)
    }

    /** In a coherent battlefield no entity is listed twice and no two share a component. */
    lemma CoherentIsInjective()
      requires Coherent()
      ensures forall i, j :: 0 <= i < j < |entities| ==> entities[i] != entities[j]
      ensures forall i, j :: 0 <= i < j < |entities| ==> entities[i].position != entities[j].position
    {
      forall i, j | 0 <= i < j < |entities| ensures entities[i].position != entities[j].position {
        assert positions[entities[i].position.position] == i;
        assert positions[entities[j].position.position] == j;
      }
    }

    /**
     * Every placed entity's component reads a tile of the battlefield and
     * has a non-negative bound, so moving it never reads or writes a slot
     * outside the table.
     */
    predicate Grounded()
      reads this, positions, entities, Components()
    {
      Valid() &&
      forall k :: 0 <= k < |entities| && entities[k].position != null ==>
        IsValidPosition(entities[k].position.position) && 0 <= entities[k].position.maxPosition
    }

    /** Eight free tiles and no entities. */
    constructor()
      ensures entities == [] && fresh(positions)
      ensures Valid() && Coherent() && Grounded()
      ensures forall p :: 0 <= p < MaxTiles ==> positions[p] == Empty
    {
      entities := [];
      positions := new int[MaxTiles](_ => Empty);
    }

    predicate IsPositionOccupied(p: int)
      reads this, positions
      requires Valid()
    {
      IsValidPosition(p) && positions[p] != Empty
    }

    /** The occupant of a tile; `null` for a free tile or one off the battlefield. */
    function GetEntityAtPosition(p: int): (e: Entity?)
      reads this, positions
      requires Valid()
      ensures e != null <==> IsPositionOccupied(p)
      ensures e != null ==> e in entities && e == entities[positions[p]]
    {
      if !IsValidPosition(p) then null
      else if positions[p] == Empty then null
      else entities[positions[p]]
    }

    /** Index of an entity in the placement list, or -1, found by a scan. */
    method GetEntityIndex(e: Entity?) returns (k: int)
      ensures k == IndexOf(entities, e)
    {
      var i := 0;
      while i < |entities|
        invariant 0 <= i <= |entities|
        invariant forall j :: 0 <= j < i ==> entities[j] != e
      {
        if entities[i] == e {
          return i;
        }
        i := i + 1;
      }
      return -1;
    }

    /** Whether `MoveEntity(e, p)` would succeed: placed, valid free target, has a component. */
    predicate Movable(e: Entity, p: int)
      reads this, positions, e
      requires Valid()
    {
      e in entities && IsValidPosition(p) && !IsPositionOccupied(p) && e.position != null
    }

    /** The side-effect-free guard of `MoveEntity`. */
    method CanMoveTo(e: Entity, p: int) returns (ok: bool)
      requires Valid()
      ensures ok <==> Movable(e, p)
    {
      var k := GetEntityIndex(e);
      if k == -1 {
        return false;
      }
      if !IsValidPosition(p) {
        return false;
      }
      if IsPositionOccupied(p) {
        return false;
      }
      if e.position == null {
        return false;
      }
      return true;
    }

    /** An entity cannot move onto its own tile: that tile is occupied by it. */
    lemma NoMoveInPlace(e: Entity)
      requires Coherent() && e in entities
      ensures !Movable(e, e.position.position)
    {
      var k := IndexOf(entities, e);
    }

    /**
     * Puts an entity on a free tile and lists it.  An entity without a
     * position component is given a fresh one on that tile; an existing
     * component is moved there (clamped to its own bounds).
     */
    method PlaceEntity(e: Entity, p: int) returns (ok: bool)
      requires Valid()
      modifies this, positions, e, e.position
      ensures Valid()
      ensures ok <==> IsValidPosition(p) && !old(IsPositionOccupied(p))
      ensures !ok ==> entities == old(entities) && positions[..] == old(positions[..]) &&
                      e.position == old(e.position) && (e.position != null ==> e.position.position == old(e.position.position))
      ensures ok ==> entities == old(entities) + [e] && positions[..] == old(positions[..])[p := |old(entities)|]
      ensures old(e.position) != null ==> unchanged(e)
      ensures ok && old(e.position) == null ==>
                e.position != null && fresh(e.position) && e.position.position == p && e.position.maxPosition == 7
      ensures ok && old(e.position) != null ==>
                e.position == old(e.position) && e.position.position == Clamp(p, 0, e.position.maxPosition) &&
                e.position.maxPosition == old(e.position.maxPosition)
      ensures ok && old(Coherent()) && e !in old(entities) &&
              (old(e.position) != null ==> old(e.position) !in old(Components()) && p <= old(e.position.maxPosition)) ==>
                Coherent()
      ensures ok && old(Grounded()) && (old(e.position) != null ==> 0 <= old(e.position.maxPosition)) ==>
                Grounded()
    {
      if !IsValidPosition(p) {
        return false;
      }
      if IsPositionOccupied(p) {
        return false;
      }
      ghost var oldComponents := Components();
      ghost var wasCoherent := Coherent();
      if e.position == null {
        var c := new PositionComponent();
        e.position := c;
      }
      e.position.SetPosition(p);
      entities := entities + [e];
      positions[p] := |entities| - 1;
      ok := true;
      if wasCoherent && e !in old(entities) &&
         (old(e.position) != null ==> old(e.position) !in oldComponents && p <= old(e.position.maxPosition)) {
        var n := |entities| - 1;
        forall k | 0 <= k < n
          ensures entities[k].position == old(entities[k].position)
          ensures entities[k].position.position == old(entities[k].position.position)
        {
          assert entities[k] == old(entities)[k] && entities[k] != e;
          assert old(entities[k].position) in oldComponents;
        }
        forall k | 0 <= k < |entities|
          ensures entities[k].position != null && IsValidPosition(entities[k].position.position)
          ensures positions[entities[k].position.position] == k
        {
          if k < n {
            assert old(positions[entities[k].position.position]) == k;
          }
        }
        forall q | 0 <= q < MaxTiles && positions[q] != Empty
          ensures entities[positions[q]].position != null && entities[positions[q]].position.position == q
        {
          if q != p {
            assert positions[q] == old(positions[q]) && positions[q] < n;
          }
        }
      }
    }

    /**
     * Moves a placed entity to a free tile: frees its old tile (read from
     * its component), binds the new one and updates the component.
     */
    method MoveEntity(e: Entity, p: int) returns (ok: bool)
      requires Valid()
      requires e in entities && e.position != null ==> IsValidPosition(e.position.position)
      modifies positions, e.position
      ensures Valid()
      ensures ok <==> old(Movable(e, p))
      ensures !ok ==> positions[..] == old(positions[..]) &&
                      (e.position != null ==> e.position.position == old(e.position.position))
      ensures ok ==> positions[..] == old(positions[..])[old(e.position.position) := Empty][p := IndexOf(entities, e)]
      ensures ok ==> e.position.position == Clamp(p, 0, e.position.maxPosition) &&
                     e.position.maxPosition == old(e.position.maxPosition)
      ensures ok && old(Coherent()) && p <= old(e.position.maxPosition) ==> Coherent()
      ensures old(Grounded()) ==> Grounded()
    {
      var k := GetEntityIndex(e);
      if k == -1 {
        return false;
      }
      if !IsValidPosition(p) {
        return false;
      }
      if IsPositionOccupied(p) {
        return false;
      }
      if e.position == null {
        return false;
      }
      Relocate(e, k, p);
      ok := true;
    }

    /** The update half of `MoveEntity`, once every guard has passed. */
    method Relocate(e: Entity, k: int, p: int)
      requires Valid() && Movable(e, p) && k == IndexOf(entities, e)
      requires IsValidPosition(e.position.position)
      modifies positions, e.position
      ensures Valid()
      ensures positions[..] == old(positions[..])[old(e.position.position) := Empty][p := k]
      ensures e.position.position == Clamp(p, 0, e.position.maxPosition) &&
              e.position.maxPosition == old(e.position.maxPosition)
      ensures old(Coherent()) && p <= old(e.position.maxPosition) ==> Coherent()
      ensures old(Grounded()) ==> Grounded()
    {
      ghost var wasCoherent := Coherent();
      ghost var wasGrounded := Grounded();
      if wasCoherent {
        CoherentIsInjective();
      }
      var c := e.position;
      var cur := c.position;
      c.SetPosition(p);
      positions[cur] := Empty;
      positions[p] := k;
      if wasCoherent && p <= old(c.maxPosition) {
        forall j | 0 <= j < |entities|
          ensures entities[j].position != null && IsValidPosition(entities[j].position.position)
          ensures positions[entities[j].position.position] == j
        {
          if j != k {
            assert entities[j].position != c;
            assert entities[j].position.position == old(entities[j].position.position);
          }
        }
        forall q | 0 <= q < MaxTiles && positions[q] != Empty
          ensures entities[positions[q]].position != null && entities[positions[q]].position.position == q
        {
          if q != p {
            assert positions[q] == old(positions[q]);
          }
        }
      }
      if wasGrounded {
        forall j | 0 <= j < |entities| && entities[j].position != null
          ensures IsValidPosition(entities[j].position.position) && 0 <= entities[j].position.maxPosition
        {
          if entities[j].position != c {
            assert entities[j].position.position == old(entities[j].position.position);
          }
        }
      }
    }

    /** The occupants of tiles `lo..hi-1`, in tile order. */
    function Occupants(lo: int, hi: int): (es: seq<Entity>)
      reads this, positions
      requires Valid() && 0 <= lo <= hi <= MaxTiles
      ensures |es| <= hi - lo
      decreases hi - lo
    {
      if lo == hi then []
      else
        var prev := Occupants(lo, hi - 1);
        var here := GetEntityAtPosition(hi - 1);
        if here == null then prev else prev + [here]
    }

    /** The occupants are exactly the entities found on tiles `lo..hi-1`. */
    lemma {:induction false} OccupantsExact(lo: int, hi: int)
      requires Valid() && 0 <= lo <= hi <= MaxTiles
      ensures forall e :: e in Occupants(lo, hi) <==> exists p :: lo <= p < hi && GetEntityAtPosition(p) == e
      decreases hi - lo
    {
      if lo < hi {
        OccupantsExact(lo, hi - 1);
        forall e ensures e in Occupants(lo, hi) <==> exists p :: lo <= p < hi && GetEntityAtPosition(p) == e {
          if e !in Occupants(lo, hi - 1) && GetEntityAtPosition(hi - 1) == e {
            assert e in Occupants(lo, hi);
          }
        }
      }
    }

    method CollectSide(lo: int, hi: int) returns (es: seq<Entity>)
      requires Valid() && 0 <= lo <= hi <= MaxTiles
      ensures es == Occupants(lo, hi)
    {
      es := [];
      var i := lo;
      while i < hi
        invariant lo <= i <= hi
        invariant es == Occupants(lo, i)
      {
        var here := GetEntityAtPosition(i);
        if here != null {
          es := es + [here];
        }
        i := i + 1;
      }
    }

    /** The occupants of tiles 0-3 in tile order. */
    method GetPlayerSideEntities() returns (es: seq<Entity>)
      requires Valid()
      ensures es == Occupants(0, 4)
    {
      es := CollectSide(0, 4);
    }

    /** The occupants of tiles 4-7 in tile order. */
    method GetEnemySideEntities() returns (es: seq<Entity>)
      requires Valid()
      ensures es == Occupants(4, MaxTiles)
    {
      es := CollectSide(4, MaxTiles);
    }

    /** Placed, with a component reading a tile in `lo..hi-1`. */
    predicate OnSide(e: Entity?, lo: int, hi: int)
      reads this, e, if e != null then {e.position} else {}
    {
      e != null && e in entities && e.position != null && lo <= e.position.position < hi
    }

    method IsOnPlayerSide(e: Entity?) returns (r: bool)
      ensures r <==> OnSide(e, 0, 4)
    {
      var k := GetEntityIndex(e);
      if k == -1 {
        return false;
      }
      if e.position == null {
        return false;
      }
      var p := e.position.position;
      return p >= 0 && p < 4;
    }

    method IsOnEnemySide(e: Entity?) returns (r: bool)
      ensures r <==> OnSide(e, 4, MaxTiles)
    {
      var k := GetEntityIndex(e);
      if k == -1 {
        return false;
      }
      if e.position == null {
        return false;
      }
      var p := e.position.position;
      return p >= 4 && p < MaxTiles;
    }

    /** On a coherent battlefield, the side read from a component agrees with the slot table. */
    lemma SideAgreesWithSlots(e: Entity, lo: int, hi: int)
      requires Coherent() && 0 <= lo <= hi <= MaxTiles
      ensures OnSide(e, lo, hi) <==> e in Occupants(lo, hi)
    {
      OccupantsExact(lo, hi);
      if OnSide(e, lo, hi) {
        var k := IndexOf(entities, e);
        assert GetEntityAtPosition(e.position.position) == e;
      }
      if e in Occupants(lo, hi) {
        var p :| lo <= p < hi && GetEntityAtPosition(p) == e;
      }
    }

    /** Drops every entity and frees every tile. */
    method Clear()
      requires Valid()
      modifies this, positions
      ensures entities == []
      ensures forall p :: 0 <= p < MaxTiles ==> positions[p] == Empty
      ensures Valid() && Coherent() && Grounded()
    {
      entities := [];
      var i := 0;
      while i < MaxTiles
        invariant 0 <= i <= MaxTiles
        invariant entities == []
        invariant forall p :: 0 <= p < i ==> positions[p] == Empty
      {
        positions[i] := Empty;
        i := i + 1;
      }
    }
  }
}
