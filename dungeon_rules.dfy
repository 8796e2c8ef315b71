/**
 * The arithmetic of floor generation: the generation parameters and
 * their constructor, the room target, grid directions and the orders a
 * shuffle can put them in, the room type a walk step gives a cell, the
 * encounter strength of each room, and the integer conversions the
 * generator goes through.
 */
module DungeonRules {
  import opened Common
  import opened Rooms

  /** The parameters of one floor; `loopChance` is a probability. */
  datatype Params = Params(
    width: int,
    height: int,
    numRooms: int,
    minRoomsPerFloor: int,
    maxRoomsPerFloor: int,
    numTreasureRooms: int,
    hasBossRoom: bool,
    difficulty: int,
    loopChance: real)

  /** The parameters a default-constructed parameter set holds. */
  const DefaultParams := Params(5, 5, 12, 10, 20, 2, true, 1, 0.2)

  /** The bounds the custom constructor sets out to enforce. */
  predicate InBounds(p: Params)
  {
    p.width >= 3 && p.height >= 3 && p.numRooms >= 5 && p.numTreasureRooms <= p.numRooms / 3 &&
    p.difficulty >= 1 && 0.0 <= p.loopChance <= 1.0
  }

  /**
   * The custom constructor as written: its clamps assign the constructor
   * arguments, which shadow the fields, so the fields keep the raw
   * arguments. Only the treasure count, whose argument has another name,
   * is capped, and it is capped by a third of the clamped argument.
   */
  function ParamsAsWritten(width: int, height: int, numRooms: int, treasureRooms: int,
                           hasBoss: bool, difficulty: int, loopChance: real): Params
  {
    var clampedRooms := Max(numRooms, 5);
    Params(width, height, numRooms, 10, 20,
           if treasureRooms > clampedRooms / 3 then clampedRooms / 3 else treasureRooms,
           hasBoss, difficulty, loopChance)
  }

  /** The custom constructor with every clamp applied to the field it names. */
  function ParamsCorrected(width: int, height: int, numRooms: int, treasureRooms: int,
                           hasBoss: bool, difficulty: int, loopChance: real): Params
  {
    var rooms := Max(numRooms, 5);
    Params(Max(width, 3), Max(height, 3), rooms, 10, 20,
           if treasureRooms > rooms / 3 then rooms / 3 else treasureRooms,
           hasBoss, Max(difficulty, 1),
           if loopChance < 0.0 then 0.0 else if loopChance > 1.0 then 1.0 else loopChance)
  }

  /** Whatever the arguments, the corrected constructor yields parameters within the bounds. */
  lemma CorrectedInBounds(width: int, height: int, numRooms: int, treasureRooms: int,
                          hasBoss: bool, difficulty: int, loopChance: real)
    ensures InBounds(ParamsCorrected(width, height, numRooms, treasureRooms, hasBoss, difficulty, loopChance))
  {
  }

  /** On arguments already within the bounds the two constructors agree. */
  lemma ConstructorsAgreeInBounds(width: int, height: int, numRooms: int, treasureRooms: int,
                                  hasBoss: bool, difficulty: int, loopChance: real)
    requires InBounds(Params(width, height, numRooms, 10, 20, treasureRooms, hasBoss, difficulty, loopChance))
    ensures ParamsAsWritten(width, height, numRooms, treasureRooms, hasBoss, difficulty, loopChance)
         == ParamsCorrected(width, height, numRooms, treasureRooms, hasBoss, difficulty, loopChance)
  {
  }

  /** A 1 by 1 grid, 2 rooms, difficulty 0 and a negative loop chance all pass through the constructor as written. */
  lemma AsWrittenKeepsOutOfBounds()
    ensures var p := ParamsAsWritten(1, 1, 2, 0, true, 0, -0.5);
            p.width == 1 && p.height == 1 && p.numRooms == 2 && p.difficulty == 0 && p.loopChance == -0.5 &&
            !InBounds(p)
  {
  }

  /** The number of rooms the walk aims for: the requested number, at most the grid size, at least 5. */
  function RoomTarget(p: Params): (n: int)
    ensures n >= 5
    ensures n == Max(5, Min(p.numRooms, p.width * p.height))
  {
    var n := if p.numRooms > p.width * p.height then p.width * p.height else p.numRooms;
    if n < 5 then 5 else n
  }

  /** The four grid directions, in the order the generator lists them. */
  datatype Dir = Right | Down | Left | Up

  const Directions: seq<Dir> := [Right, Down, Left, Up]

  function Dx(d: Dir): int
  {
    match d
    case Right => 1
    case Left => -1
    case _ => 0
  }

  function Dy(d: Dir): int
  {
    match d
    case Down => 1
    case Up => -1
    case _ => 0
  }

  /**
   * The order a shuffle puts `xs` in, selected by `code`: the first pick
   * is `code % |xs|`, the rest of the order is selected by `code / |xs|`
   * among the remaining elements. Every order is selected by some code.
   */
  function Shuffled<T>(xs: seq<T>, code: nat): (ys: seq<T>)
    ensures |ys| == |xs|
  {
    if xs == [] then []
    else
      var i := code % |xs|;
      [xs[i]] + Shuffled(xs[..i] + xs[i + 1..], code / |xs|)
  }

  /** A shuffle only reorders: it keeps every element as often as it occurs. */
  lemma {:induction false} ShuffledPermutes<T>(xs: seq<T>, code: nat)
    ensures multiset(Shuffled(xs, code)) == multiset(xs)
    decreases |xs|
  {
    if xs != [] {
      var i := code % |xs|;
      assert xs == xs[..i] + [xs[i]] + xs[i + 1..];
      ShuffledPermutes(xs[..i] + xs[i + 1..], code / |xs|);
    }
  }

  /** No element occurs twice in `xs`. */
  predicate Distinct<T(==)>(xs: seq<T>)
  {
    forall i, j :: 0 <= i < j < |xs| ==> xs[i] != xs[j]
  }

  /** A shuffle holds exactly the elements of what it shuffles. */
  lemma ShuffledHas<T>(xs: seq<T>, code: nat, x: T)
    ensures x in Shuffled(xs, code) <==> x in xs
  {
    ShuffledPermutes(xs, code);
    assert x in Shuffled(xs, code) <==> x in multiset(Shuffled(xs, code));
  }

  /** Taking out one element of a distinct sequence leaves the rest distinct and without it. */
  lemma DistinctRemove<T>(xs: seq<T>, i: int)
    requires Distinct(xs) && 0 <= i < |xs|
    ensures Distinct(xs[..i] + xs[i + 1..]) && xs[i] !in xs[..i] + xs[i + 1..]
  {
    var rest := xs[..i] + xs[i + 1..];
    forall a, b | 0 <= a < b < |rest|
      ensures rest[a] != rest[b]
    {
      var a' := if a < i then a else a + 1;
      var b' := if b < i then b else b + 1;
      assert rest[a] == xs[a'] && rest[b] == xs[b'];
    }
    forall m | 0 <= m < |rest|
      ensures rest[m] != xs[i]
    {
      var m' := if m < i then m else m + 1;
      assert rest[m] == xs[m'];
    }
  }

  /** A shuffle of distinct elements is distinct. */
  lemma {:induction false} ShuffledDistinct<T>(xs: seq<T>, code: nat)
    requires Distinct(xs)
    ensures Distinct(Shuffled(xs, code))
    decreases |xs|
  {
    if xs != [] {
      var i := code % |xs|;
      var rest := xs[..i] + xs[i + 1..];
      var tail := Shuffled(rest, code / |xs|);
      DistinctRemove(xs, i);
      ShuffledDistinct(rest, code / |xs|);
      ShuffledHas(rest, code / |xs|, xs[i]);
      var ys := Shuffled(xs, code);
      assert ys == [xs[i]] + tail;
      forall a, b | 0 <= a < b < |ys|
        ensures ys[a] != ys[b]
      {
        assert ys[b] == tail[b - 1];
        if a > 0 {
          assert ys[a] == tail[a - 1];
        }
      }
    }
  }

  /** Every direction occurs in every shuffled order. */
  lemma ShuffledDirections(code: nat, d: Dir)
    ensures d in Shuffled(Directions, code)
  {
    ShuffledPermutes(Directions, code);
    assert d in multiset(Directions);
    assert d in multiset(Shuffled(Directions, code));
  }

  /** The grid distance between two cells. */
  function Manhattan(x1: int, y1: int, x2: int, y2: int): nat
  {
    Abs(x1 - x2) + Abs(y1 - y2)
  }

  /**
   * The type of the room a walk step places on (x, y): the exit on the
   * middle cell of the last column, the boss (when there is one) just
   * before it, a normal room anywhere else.
   */
  function WalkKind(p: Params, x: int, y: int): (k: RoomType)
    ensures k == Exit <==> x == p.width - 1 && y == p.height / 2
    ensures k == Boss <==> p.hasBossRoom && x == p.width - 2 && y == p.height / 2
    ensures k in {Normal, Exit, Boss}
  {
    if x == p.width - 1 && y == p.height / 2 then Exit
    else if p.hasBossRoom && x == p.width - 2 && y == p.height / 2 then Boss
    else Normal
  }

  const Two32: int := 0x1_0000_0000
  const Two64: int := 0x1_0000_0000_0000_0000

  /** Narrowing an unsigned 64-bit value to a 32-bit int: the value modulo 2^32, read in two's complement. */
  function ToInt32(v: int): (r: int)
    ensures -0x8000_0000 <= r < 0x8000_0000
    ensures (r - v) % Two32 == 0
  {
    var m := v % Two32;
    if m >= 0x8000_0000 then m - Two32 else m
  }

  /** An int converted to a 64-bit `size_t`. */
  function ToSize(v: int): (r: int)
    ensures 0 <= r < Two64
  {
    v % Two64
  }

  /**
   * The encounter strength of a normal room at grid distance `dist` from
   * the entrance: `1 + dist * difficulty / (height + width)`, computed as
   * the source does, in `size_t` because the divisor is a grid size, then
   * narrowed to int, and finally capped at `difficulty + 2`.
   */
  function NormalDifficulty(dist: nat, difficulty: int, height: nat, width: nat): int
    requires height + width > 0
  {
    var q := ToSize(dist * difficulty) / (height + width);
    Min(ToInt32(ToSize(1 + q)), difficulty + 2)
  }

  /**
   * With a non-negative difficulty the `size_t` detour changes nothing:
   * the strength is `min(1 + dist * difficulty / (h + w), difficulty + 2)`,
   * between 1 and `difficulty + 2`.
   */
  lemma NormalDifficultyRange(dist: nat, difficulty: int, height: nat, width: nat)
    requires height >= 1 && width >= 1 && 0 <= difficulty && dist * difficulty < 0x8000_0000
    ensures var d := NormalDifficulty(dist, difficulty, height, width);
            d == Min(1 + dist * difficulty / (height + width), difficulty + 2) && 1 <= d <= difficulty + 2
  {
    var product := dist * difficulty;
    QuotientSmall(product, height + width);
    var q := product / (height + width);
    assert ToSize(product) == product;
    assert ToSize(1 + q) == 1 + q;
  }

  lemma QuotientSmall(n: int, s: int)
    requires 0 <= n < 0x8000_0000 && s >= 2
    ensures 0 <= n / s < 0x4000_0000
  {
  }

  /** A negative difficulty wraps around in `size_t`: distance 1, difficulty -1 on a 5 by 5 grid gives a negative strength. */
  lemma NormalDifficultyWraps()
    ensures NormalDifficulty(1, -1, 5, 5) < 0
  {
    assert ToSize(-1) == Two64 - 1;
    assert (Two64 - 1) / 10 == 0x1999_9999_9999_9999;
    assert ToSize(1 + 0x1999_9999_9999_9999) == 0x1999_9999_9999_999A;
  }

  /** The quality of a treasure room's chest: `1 + difficulty / 2`, C++ division. */
  function TreasureQuality(difficulty: int): (q: int)
    ensures difficulty >= 0 ==> q == 1 + difficulty / 2
  {
    1 + TruncDiv(difficulty, 2)
  }

  /** The strength of the boss fight. */
  function BossDifficulty(difficulty: int): int
  {
    difficulty + 3
  }

  /**
   * `static_cast<int>(rooms.size() - 3)`: the unsigned subtraction wraps
   * below 3, and the narrowing brings it back to `size - 3`.
   */
  function RoomsLessThree(size: nat): (r: int)
    requires size < 0x8000_0000
    ensures r == size - 3
  {
    var v := ToInt32(ToSize(size - 3));
    assert size < 3 ==> ToSize(size - 3) == Two64 + size - 3;
    v
  }

  /** The number of rooms to turn into treasure rooms. */
  function TreasureTarget(numTreasureRooms: int, size: nat): int
    requires size < 0x8000_0000
  {
    Min(numTreasureRooms, RoomsLessThree(size))
  }

  /** The description a room created by the generator gets; a normal room's is chosen by a draw in 0..5. */
  function CreatedDescription(kind: RoomType, roll: nat): string
  {
    match kind
    case Entrance => "The entrance to the dungeon floor. A cold draft blows from deeper within."
    case Exit => "A staircase leading to the next floor of the dungeon awaits."
    case Boss => "An imposing chamber with strange markings. Something powerful lurks here."
    case Treasure => "A room filled with glittering gold and valuable treasures. What riches await?"
    case Normal =>
      var k := roll % 6;
      if k == 0 then "A damp chamber with water dripping from the ceiling."
      else if k == 1 then "Ancient runes cover the walls of this mysterious room."
      else if k == 2 then "Cobwebs fill the corners of this neglected area."
      else if k == 3 then "The remnants of a camp suggest others have passed through recently."
      else if k == 4 then "Broken furniture and debris litter this once-inhabited room."
      else "A standard dungeon chamber with stone walls and flickering torches."
  }

  /** A draw from `uniform_real_distribution(0, 1)`, idealised as a fraction with 24 bits. */
  function Unit(roll: nat): (u: real)
    ensures 0.0 <= u < 1.0
  {
    (roll % 0x100_0000) as real / 0x100_0000 as real
  }
}
