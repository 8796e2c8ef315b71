/**
 * The position component: a tile index on a one-dimensional battlefield
 * of `maxPosition + 1` tiles, eight by default.
 */
module Positions {
  import opened Common

  /** `value` forced into `lo..hi`. */
  function Clamp(value: int, lo: int, hi: int): (r: int)
    ensures lo <= hi ==> lo <= r <= hi
    ensures lo <= value <= hi ==> r == value
    ensures value < lo ==> r == lo
    ensures lo <= value && value > hi ==> r == hi
  {
    if value < lo then lo else if value > hi then hi else value
  }

  class PositionComponent {
    var position: int
    var maxPosition: int

    /** The position lies on the battlefield, which has at least two tiles. */
    predicate Valid()
      reads this
    {
      1 <= maxPosition && 0 <= position <= maxPosition
    }

    /** Tile 0 of an eight-tile battlefield. */
    constructor()
      ensures position == 0 && maxPosition == 7
      ensures Valid()
    {
      position := 0;
      maxPosition := 7;
    }

    /** A tile index of this battlefield. */
    predicate IsValidPosition(p: int)
      reads this
    {
      0 <= p <= maxPosition
    }

    /** Whether the tile can be entered; only the bounds are checked. */
    predicate CanMoveTo(target: int)
      reads this
    {
      IsValidPosition(target)
    }

    predicate IsAtLeftEdge()
      reads this
    {
      position <= 0
    }

    predicate IsAtRightEdge()
      reads this
    {
      position >= maxPosition
    }

    /** The number of tiles between the two positions. */
    function DistanceTo(other: PositionComponent): (d: int)
      reads this, other
      ensures d >= 0
      ensures d == 0 <==> position == other.position
    {
      Abs(position - other.position)
    }

    predicate IsWithinRange(other: PositionComponent, range: int)
      reads this, other
    {
      DistanceTo(other) <= range
    }

    /** 1 when the other lies at a higher tile, -1 when lower, 0 on the same tile. */
    function DirectionTo(other: PositionComponent): (dir: int)
      reads this, other
      ensures dir == 1 <==> position < other.position
      ensures dir == -1 <==> position > other.position
      ensures dir == 0 <==> position == other.position
    {
      if position < other.position then 1
      else if position > other.position then -1
      else 0
    }

    /** Distance is symmetric and stepping the distance in the direction reaches the other tile. */
    lemma DistanceAndDirection(other: PositionComponent)
      ensures DistanceTo(other) == other.DistanceTo(this)
      ensures DirectionTo(other) == -other.DirectionTo(this)
      ensures position + DirectionTo(other) * DistanceTo(other) == other.position
    {
    }

    /** Stores a valid tile as given; an invalid one is clamped to the nearest edge. */
    method SetPosition(p: int)
      modifies this`position
      ensures position == Clamp(p, 0, maxPosition)
      ensures IsValidPosition(p) ==> position == p
      ensures old(1 <= maxPosition) ==> Valid()
    {
      if IsValidPosition(p) {
        position := p;
      } else {
        position := Clamp(p, 0, maxPosition);
      }
    }

    /** Moves `steps` tiles up when the target tile is on the battlefield; otherwise stays. */
    method MoveForward(steps: int := 1) returns (moved: bool)
      modifies this`position
      ensures moved <==> old(CanMoveTo(position + steps))
      ensures moved ==> position == old(position) + steps
      ensures !moved ==> position == old(position)
      ensures old(Valid()) ==> Valid()
    {
      var target := position + steps;
      if CanMoveTo(target) {
        position := target;
        return true;
      }
      return false;
    }

    /** Moving backward is moving forward by the negated step count. */
    method MoveBackward(steps: int := 1) returns (moved: bool)
      modifies this`position
      ensures moved <==> old(CanMoveTo(position - steps))
      ensures moved ==> position == old(position) - steps
      ensures !moved ==> position == old(position)
      ensures old(Valid()) ==> Valid()
    {
      moved := MoveForward(-steps);
    }

    /** Resizes to `size` tiles (at least two), pulling the position back inside. */
    method SetBattlefieldSize(size: int)
      modifies this`position, this`maxPosition
      ensures maxPosition == Max(size, 2) - 1
      ensures position == Min(old(position), maxPosition)
      ensures old(position) >= 0 ==> Valid()
    {
      var s := size;
      if s < 2 {
        s := 2;
      }
      maxPosition := s - 1;
      if position > maxPosition {
        position := maxPosition;
      }
    }
  }
}
