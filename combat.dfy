/**
 * The combat system: the two teams, the battlefield they stand on, the
 * turn manager that orders them, and the state machine that moves a
 * fight from action selection through execution and enemy turns to its
 * end.  Random rolls come from the oracle of `Common`.
 */
module Combat {
  import opened Common
  import opened Stats
  import opened Positions
  import opened Entities
  import opened Battlefields
  import opened Actions
  import opened Turns

  /** How a fight stands: undecided, won, lost, or fled. */
  datatype CombatResult = NoResult | PlayerVictory | PlayerDefeat | Escape

  datatype CombatState = NotStarted | SelectingAction | ExecutingAction | EnemyTurn | Ended

  // ----- Teams and their placement -----

  /** The entity objects of a team, as a frame. */
  function Members(team: seq<Entity?>): set<Entity>
  {
    set e: Entity | e in team
  }

  /** The position components of a team's members. */
  function Components(team: seq<Entity?>): set<PositionComponent>
    reads Members(team)
  {
    set i | 0 <= i < |team| && team[i] != null && team[i].position != null :: team[i].position
  }

  /** Present and carrying a position component: an entity combat places on a tile. */
  predicate Fielded(e: Entity?)
    reads e
  {
    e != null && e.position != null
  }

  /** The members combat considers for placement: at most the first four. */
  function Lineup(team: seq<Entity?>): seq<Entity?>
  {
    team[..Min(|team|, 4)]
  }

  /**
   * The occupants a team's side receives, tile by tile: the `j`-th of
   * the first four members when it carries a position component, else
   * nobody.
   */
  function Line(team: seq<Entity?>): (line: seq<Entity?>)
    reads Members(team)
    ensures |line| == Min(|team|, 4)
    ensures forall j :: 0 <= j < |line| ==> line[j] == (if Fielded(team[j]) then team[j] else null)
  {
    seq(Min(|team|, 4), j requires 0 <= j < Min(|team|, 4) reads Members(team) =>
      if Fielded(team[j]) then team[j] else null)
  }

  /**
   * Where seating a line from tile `offset` leaves the components of its
   * members (`comps`, null for an empty place): the `j`-th reads tile
   * `offset + j`, clamped to its own bounds, unless a later member of
   * the line shares it (and so moved it again) or it is one of `moved`.
   */
  predicate Aimed(comps: seq<PositionComponent?>, offset: int, moved: seq<PositionComponent?>)
    reads comps
  {
    forall j :: 0 <= j < |comps| && comps[j] != null && comps[j] !in moved &&
                (forall k :: j < k < |comps| ==> comps[k] != comps[j]) ==>
      comps[j].position == Clamp(offset + j, 0, comps[j].maxPosition)
  }

  /** The entities of a line, in order, gaps dropped. */
  function Present(line: seq<Entity?>): (es: seq<Entity>)
    ensures |es| <= |line|
    decreases |line|
  {
    if line == [] then []
    else Present(line[..|line| - 1]) + (if line[|line| - 1] != null then [line[|line| - 1]] else [])
  }

  /**
   * What tile `q` holds after seating a line from tile `offset` on, when
   * the placement list held `base` entities and the slot table was
   * `table`: a present entity's tile holds its index in the list, every
   * other tile keeps its slot.
   */
  function Seated(table: seq<int>, line: seq<Entity?>, n: int, offset: int, base: int, q: int): int
    requires 0 <= q < |table| && 0 <= n <= |line|
  {
    if offset <= q < offset + n && line[q - offset] != null
    then base + |Present(line[..q - offset])| else table[q]
  }

  /** A slot table agrees with seating the first `n` members of a line. */
  predicate SeatedUpTo(cur: seq<int>, table: seq<int>, line: seq<Entity?>, n: int, offset: int, base: int)
  {
    |cur| == |table| && 0 <= n <= |line| &&
    forall q :: 0 <= q < |table| ==> cur[q] == Seated(table, line, n, offset, base, q)
  }

  lemma SeatOne(cur: seq<int>, table: seq<int>, line: seq<Entity?>, n: int, offset: int, base: int)
    requires SeatedUpTo(cur, table, line, n, offset, base) && n < |line| && line[n] != null
    requires 0 <= offset + n < |cur|
    ensures SeatedUpTo(cur[offset + n := base + |Present(line[..n])|], table, line, n + 1, offset, base)
  {
  }

  lemma SeatNone(cur: seq<int>, table: seq<int>, line: seq<Entity?>, n: int, offset: int, base: int)
    requires SeatedUpTo(cur, table, line, n, offset, base) && n < |line| && line[n] == null
    ensures SeatedUpTo(cur, table, line, n + 1, offset, base)
  {
  }

  /** Joining two lines joins their entities. */
  lemma {:induction false} PresentAppend(a: seq<Entity?>, b: seq<Entity?>)
    ensures Present(a + b) == Present(a) + Present(b)
    decreases |b|
  {
    if b == [] {
      assert a + b == a;
    } else {
      var init := b[..|b| - 1];
      var tail := if b[|b| - 1] != null then [b[|b| - 1]] else [];
      assert (a + b)[..|a + b| - 1] == a + init;
      PresentAppend(a, init);
      assert Present(a) + Present(init) + tail == Present(a) + (Present(init) + tail);
    }
  }

  /** A present entity sits in the list right after the present entities before it. */
  lemma PresentIndex(line: seq<Entity?>, j: int)
    requires 0 <= j < |line| && line[j] != null
    ensures |Present(line[..j])| < |Present(line)|
    ensures Present(line)[|Present(line[..j])|] == line[j]
  {
    assert line[..j + 1][..j] == line[..j];
    assert line == line[..j + 1] + line[j + 1..];
    PresentAppend(line[..j + 1], line[j + 1..]);
  }

  /** Every fielded member's component has a non-negative bound. */
  predicate Bounded(team: seq<Entity?>)
    reads Members(team), Components(team)
  {
    forall i :: 0 <= i < |team| && Fielded(team[i]) ==> team[i].position.maxPosition >= 0
  }

  /**
   * Where the placing loop of `Field` stands after the first `i` members:
   * they are seated, the remaining tiles of the side are still as they
   * were, no member's component pointer has moved (`comps` holds them),
   * every bound is the one it was (`maxes`) and each seated member's
   * component reads its tile unless a later seated member shares it.
   * `grounded` records that
   * the battlefield was grounded and the line's bounds non-negative.
   */
  predicate Placing(bf: Battlefield, team: seq<Entity?>, i: int, offset: int,
                    line: seq<Entity?>, table: seq<int>, ents: seq<Entity>,
                    comps: seq<PositionComponent?>, maxes: seq<int>, grounded: bool)
    reads bf, bf.positions, bf.entities, bf.Components(), Members(team), Components(team)
  {
    0 <= i <= |line| == Min(|team|, 4) && |comps| == |maxes| == |team| &&
    0 <= offset && offset + 4 <= MaxTiles == |table| &&
    (forall p :: offset <= p < offset + 4 ==> table[p] == Empty) &&
    bf.Valid() &&
    bf.entities == ents + Present(line[..i]) &&
    SeatedUpTo(bf.positions[..], table, line, i, offset, |ents|) &&
    (forall j :: 0 <= j < |team| ==> comps[j] == if team[j] != null then team[j].position else null) &&
    (forall j :: 0 <= j < |line| ==> line[j] == (if team[j] != null && comps[j] != null then team[j] else null)) &&
    (forall j :: 0 <= j < |team| && team[j] != null && team[j].position != null ==>
       team[j].position.maxPosition == maxes[j]) &&
    (forall j :: 0 <= j < i && line[j] != null && (forall k :: j < k < i ==> comps[k] != comps[j]) ==>
       comps[j].position == Clamp(offset + j, 0, maxes[j])) &&
    (grounded ==> bf.Grounded() && forall j :: 0 <= j < |line| && comps[j] != null ==> 0 <= maxes[j])
  }

  /** The component pointer of each member of a team, null for a missing member. */
  ghost function Pointers(team: seq<Entity?>): (comps: seq<PositionComponent?>)
    reads Members(team)
    ensures |comps| == |team|
    ensures forall j :: 0 <= j < |team| ==> comps[j] == if team[j] != null then team[j].position else null
  {
    seq(|team|, j requires 0 <= j < |team| reads Members(team) =>
      if team[j] != null then team[j].position else null)
  }

  /** A team whose members keep their fields keeps its line and the line's components. */
  twostate lemma LineKept(team: seq<Entity?>)
    requires unchanged(Members(team))
    ensures Line(team) == old(Line(team)) && Pointers(Line(team)) == old(Pointers(Line(team)))
  {
  }

  /** The bound of each fielded member's component, zero for the others. */
  ghost function Bounds(team: seq<Entity?>): (maxes: seq<int>)
    reads Members(team), Components(team)
    ensures |maxes| == |team|
    ensures forall j :: 0 <= j < |team| && Fielded(team[j]) ==> maxes[j] == team[j].position.maxPosition
  {
    seq(|team|, j requires 0 <= j < |team| reads Members(team), Components(team) =>
      if Fielded(team[j]) then team[j].position.maxPosition else 0)
  }

  /** One turn of the placing loop: member `i`, when fielded, takes tile `offset + i`. */
  method SeatMember(bf: Battlefield, team: seq<Entity?>, i: int, offset: int,
                    ghost line: seq<Entity?>, ghost table: seq<int>, ghost ents: seq<Entity>,
                    ghost comps: seq<PositionComponent?>, ghost maxes: seq<int>, ghost grounded: bool)
    requires Placing(bf, team, i, offset, line, table, ents, comps, maxes, grounded) && i < |line|
    modifies bf, bf.positions, Members(team), Components(team)
    ensures Placing(bf, team, i + 1, offset, line, table, ents, comps, maxes, grounded)
    ensures unchanged(Members(team))
    ensures forall j :: 0 <= j < |team| && comps[j] != null && comps[j] != comps[i] ==> comps[j].position == old(comps[j].position)
  {
    assert line[..i + 1][..i] == line[..i];
    var e := team[i];
    if e != null && e.position != null {
      ghost var before := bf.positions[..];
      SeatOne(before, table, line, i, offset, |ents|);
      var ok := bf.PlaceEntity(e, offset + i);
    } else {
      SeatNone(bf.positions[..], table, line, i, offset, |ents|);
    }
  }

  /**
   * The placing loop of starting a fight: the first four members of a
   * team that carry a position component are placed, member `j` on tile
   * `offset + j`.  Those tiles are free, so every placement succeeds.
   */
  method Field(bf: Battlefield, team: seq<Entity?>, offset: int)
    requires bf.Valid() && 0 <= offset && offset + 4 <= MaxTiles
    requires forall p :: offset <= p < offset + 4 ==> bf.positions[p] == Empty
    modifies bf, bf.positions, Members(team), Components(team)
    ensures bf.Valid()
    ensures bf.entities == old(bf.entities) + Present(old(Line(team)))
    ensures SeatedUpTo(bf.positions[..], old(bf.positions[..]), old(Line(team)), Min(|team|, 4), offset, |old(bf.entities)|)
    ensures unchanged(Members(team))
    ensures forall j :: 0 <= j < |team| && Fielded(team[j]) ==>
              team[j].position.maxPosition == old(team[j].position.maxPosition)
    ensures old(bf.Grounded() && Bounded(Lineup(team))) ==> bf.Grounded()
    ensures Aimed(old(Pointers(Line(team))), offset, [])
    ensures forall j :: 0 <= j < |team| && Fielded(team[j]) && team[j].position !in old(Pointers(Line(team))) ==>
              team[j].position.position == old(team[j].position.position)
  {
    ghost var line := Line(team);
    ghost var aims := Pointers(line);
    ghost var comps := Pointers(team);
    ghost var maxes := Bounds(team);
    assert forall j :: 0 <= j < |line| ==> aims[j] == if line[j] != null then comps[j] else null;
    ghost var grounded := bf.Grounded() && Bounded(Lineup(team));
    ghost var table := bf.positions[..];
    ghost var ents := bf.entities;
    PlacingBegins(bf, team, offset, line, table, ents, comps, maxes, grounded);
    var n := SeatAll(bf, team, offset, line, table, ents, comps, maxes, grounded);
    PlacingEnds(bf, team, n, offset, line, table, ents, comps, maxes, grounded, aims);
  }

  /**
   * The loop of `Field` itself: from nobody seated, the first four
   * members are seated in turn; a component no seated member shares keeps
   * its position.
   */
  method SeatAll(bf: Battlefield, team: seq<Entity?>, offset: int, ghost line: seq<Entity?>, ghost table: seq<int>,
                 ghost ents: seq<Entity>, ghost comps: seq<PositionComponent?>, ghost maxes: seq<int>, ghost grounded: bool)
    returns (n: int)
    requires Placing(bf, team, 0, offset, line, table, ents, comps, maxes, grounded)
    modifies bf, bf.positions, Members(team), Components(team)
    ensures Placing(bf, team, n, offset, line, table, ents, comps, maxes, grounded) && n >= Min(|team|, 4)
    ensures unchanged(Members(team))
    ensures forall j :: 0 <= j < |team| && comps[j] != null && (forall k :: 0 <= k < n ==> comps[k] != comps[j]) ==>
              comps[j].position == old(comps[j].position)
  {
    var i := 0;
    while i < |team| && i < 4
      invariant Placing(bf, team, i, offset, line, table, ents, comps, maxes, grounded)
      invariant unchanged(Members(team))
      invariant forall j :: 0 <= j < |team| && comps[j] != null && (forall k :: 0 <= k < i ==> comps[k] != comps[j]) ==>
                  comps[j].position == old(comps[j].position)
    {
      SeatMember(bf, team, i, offset, line, table, ents, comps, maxes, grounded);
      i := i + 1;
    }
    n := i;
  }

  /** Before the placing loop nobody is seated yet. */
  lemma PlacingBegins(bf: Battlefield, team: seq<Entity?>, offset: int,
                      line: seq<Entity?>, table: seq<int>, ents: seq<Entity>,
                      comps: seq<PositionComponent?>, maxes: seq<int>, grounded: bool)
    requires bf.Valid() && 0 <= offset && offset + 4 <= MaxTiles
    requires forall p :: offset <= p < offset + 4 ==> bf.positions[p] == Empty
    requires line == Line(team) && table == bf.positions[..] && ents == bf.entities
    requires |comps| == |team| && forall j :: 0 <= j < |team| ==> comps[j] == if team[j] != null then team[j].position else null
    requires |maxes| == |team| && forall j :: 0 <= j < |team| && Fielded(team[j]) ==> maxes[j] == team[j].position.maxPosition
    requires grounded == (bf.Grounded() && Bounded(Lineup(team)))
    ensures Placing(bf, team, 0, offset, line, table, ents, comps, maxes, grounded)
  {
    assert line[..0] == [];
    if grounded {
      forall j | 0 <= j < |line| && comps[j] != null
        ensures 0 <= maxes[j]
      {
        assert Lineup(team)[j] == team[j] && Fielded(team[j]);
      }
    }
  }

  /** After the placing loop the whole line is seated. */
  lemma PlacingEnds(bf: Battlefield, team: seq<Entity?>, i: int, offset: int,
                    line: seq<Entity?>, table: seq<int>, ents: seq<Entity>,
                    comps: seq<PositionComponent?>, maxes: seq<int>, grounded: bool, aims: seq<PositionComponent?>)
    requires Placing(bf, team, i, offset, line, table, ents, comps, maxes, grounded) && i >= Min(|team|, 4)
    requires |aims| == |line| && forall j :: 0 <= j < |line| ==> aims[j] == if line[j] != null then comps[j] else null
    ensures bf.Valid() && bf.entities == ents + Present(line)
    ensures SeatedUpTo(bf.positions[..], table, line, |line|, offset, |ents|)
    ensures forall j :: 0 <= j < |team| && Fielded(team[j]) ==> team[j].position.maxPosition == maxes[j]
    ensures grounded ==> bf.Grounded()
    ensures Aimed(aims, offset, [])
    ensures i == |line|
    ensures forall j :: 0 <= j < |team| && comps[j] != null && comps[j] !in aims ==> forall k :: 0 <= k < i ==> comps[k] != comps[j]
  {
    assert line[..|line|] == line;
    PlacedAim(team, |line|, offset, line, comps, maxes, aims);
  }

  /**
   * The aim of a seated line, read on the components of the line (`aims`)
   * rather than those of the whole team and their recorded bounds; the
   * components seated are exactly those of the line.
   */
  lemma PlacedAim(team: seq<Entity?>, n: int, offset: int, line: seq<Entity?>,
                  comps: seq<PositionComponent?>, maxes: seq<int>, aims: seq<PositionComponent?>)
    requires n == |line| <= |team| == |comps| == |maxes|
    requires forall j :: 0 <= j < |team| ==> comps[j] == if team[j] != null then team[j].position else null
    requires forall j :: 0 <= j < |line| ==> line[j] == (if team[j] != null && comps[j] != null then team[j] else null)
    requires forall j :: 0 <= j < |team| && team[j] != null && team[j].position != null ==> team[j].position.maxPosition == maxes[j]
    requires forall j :: 0 <= j < n && line[j] != null && (forall k :: j < k < n ==> comps[k] != comps[j]) ==>
               comps[j].position == Clamp(offset + j, 0, maxes[j])
    requires |aims| == n && forall j :: 0 <= j < n ==> aims[j] == if line[j] != null then comps[j] else null
    ensures Aimed(aims, offset, [])
    ensures forall j :: 0 <= j < |team| && comps[j] != null && comps[j] !in aims ==> forall k :: 0 <= k < n ==> comps[k] != comps[j]
  {
    forall j | 0 <= j < n && aims[j] != null && (forall k :: j < k < n ==> aims[k] != aims[j])
      ensures aims[j].position == Clamp(offset + j, 0, aims[j].maxPosition)
    {
      forall k | j < k < n
        ensures comps[k] != comps[j]
      {
        assert aims[k] != aims[j];
      }
    }
    forall j, k | 0 <= j < |team| && comps[j] != null && 0 <= k < n && comps[k] == comps[j]
      ensures comps[j] in aims
    {
      assert line[k] == team[k] && aims[k] == comps[j];
    }
  }

  // ----- Reading the placement back -----

  /** The `j`-th entry of a line, or nobody past its end. */
  function At(line: seq<Entity?>, j: int): Entity?
  {
    if 0 <= j < |line| then line[j] else null
  }

  /** The occupant a slot table and placement list give tile `p`, as the battlefield reads it. */
  function Holder(slots: seq<int>, ents: seq<Entity>, p: int): Entity?
    requires 0 <= p < |slots|
  {
    if 0 <= slots[p] < |ents| then ents[slots[p]] else null
  }

  /**
   * Seating two lines of at most four on a cleared battlefield, the first
   * from tile 0 and the second from tile 4, leaves member `j` of the
   * first on tile `j` and member `j` of the second on tile `4 + j`.
   */
  lemma DeployedTiles(final: seq<int>, mid: seq<int>, start: seq<int>, l1: seq<Entity?>, l2: seq<Entity?>)
    requires |start| == MaxTiles && forall q :: 0 <= q < MaxTiles ==> start[q] == Empty
    requires |l1| <= 4 && |l2| <= 4
    requires SeatedUpTo(mid, start, l1, |l1|, 0, 0)
    requires SeatedUpTo(final, mid, l2, |l2|, 4, |Present(l1)|)
    ensures forall j :: 0 <= j < 4 ==>
              Holder(final, Present(l1) + Present(l2), j) == At(l1, j) &&
              Holder(final, Present(l1) + Present(l2), 4 + j) == At(l2, j)
  {
    forall j | 0 <= j < 4
      ensures Holder(final, Present(l1) + Present(l2), j) == At(l1, j)
      ensures Holder(final, Present(l1) + Present(l2), 4 + j) == At(l2, j)
    {
      FirstSideTile(final, mid, start, l1, l2, j);
      SecondSideTile(final, mid, start, l1, l2, j);
    }
  }

  /** Tile `j` of the first side holds member `j` of the first line. */
  lemma FirstSideTile(final: seq<int>, mid: seq<int>, start: seq<int>, l1: seq<Entity?>, l2: seq<Entity?>, j: int)
    requires |start| == MaxTiles && forall q :: 0 <= q < MaxTiles ==> start[q] == Empty
    requires |l1| <= 4 && |l2| <= 4 && 0 <= j < 4
    requires SeatedUpTo(mid, start, l1, |l1|, 0, 0)
    requires SeatedUpTo(final, mid, l2, |l2|, 4, |Present(l1)|)
    ensures Holder(final, Present(l1) + Present(l2), j) == At(l1, j)
  {
    TileAfter(final, mid, l2, 4, |Present(l1)|, j);
    TileAfter(mid, start, l1, 0, 0, j);
    if j < |l1| && l1[j] != null {
      PresentIndex(l1, j);
      var ents := Present(l1) + Present(l2);
      assert ents[|Present(l1[..j])|] == Present(l1)[|Present(l1[..j])|];
    }
  }

  /** Tile `4 + j` of the second side holds member `j` of the second line. */
  lemma SecondSideTile(final: seq<int>, mid: seq<int>, start: seq<int>, l1: seq<Entity?>, l2: seq<Entity?>, j: int)
    requires |start| == MaxTiles && forall q :: 0 <= q < MaxTiles ==> start[q] == Empty
    requires |l1| <= 4 && |l2| <= 4 && 0 <= j < 4
    requires SeatedUpTo(mid, start, l1, |l1|, 0, 0)
    requires SeatedUpTo(final, mid, l2, |l2|, 4, |Present(l1)|)
    ensures Holder(final, Present(l1) + Present(l2), 4 + j) == At(l2, j)
  {
    TileAfter(final, mid, l2, 4, |Present(l1)|, 4 + j);
    TileAfter(mid, start, l1, 0, 0, 4 + j);
    if j < |l2| && l2[j] != null {
      PresentIndex(l2, j);
      var ents := Present(l1) + Present(l2);
      assert ents[|Present(l1)| + |Present(l2[..j])|] == Present(l2)[|Present(l2[..j])|];
    }
  }

  /** One tile of a fully seated line. */
  lemma TileAfter(cur: seq<int>, table: seq<int>, line: seq<Entity?>, offset: int, base: int, q: int)
    requires SeatedUpTo(cur, table, line, |line|, offset, base) && 0 <= q < |table|
    ensures cur[q] == Seated(table, line, |line|, offset, base, q)
  {
  }

  // ----- Verdicts -----

  /** The verdict on two teams: defeat when no player is alive, else victory when no enemy is. */
  function Outcome(players: seq<Entity?>, enemies: seq<Entity?>): CombatResult
    reads Frame(players), Frame(enemies)
  {
    if NoneAlive(players) then PlayerDefeat
    else if NoneAlive(enemies) then PlayerVictory
    else NoResult
  }

  /**
   * When a team of at most four, every member fielded, stands on its
   * side tile by tile, the side's occupants are all down exactly when
   * the team is.
   */
  lemma SideVerdict(bf: Battlefield, team: seq<Entity?>, lo: int)
    requires bf.Valid() && 0 <= lo && lo + 4 <= MaxTiles
    requires |team| <= 4 && forall i :: 0 <= i < |team| && team[i] != null ==> team[i].position != null
    requires forall j :: 0 <= j < 4 ==> bf.GetEntityAtPosition(lo + j) == At(Line(team), j)
    ensures NoneAlive(bf.Occupants(lo, lo + 4)) <==> NoneAlive(team)
  {
    var occ := bf.Occupants(lo, lo + 4);
    var line := Line(team);
    bf.OccupantsExact(lo, lo + 4);
    if !NoneAlive(team) {
      var i :| 0 <= i < |team| && Eligible(team[i]);
      assert At(line, i) == team[i];
      assert bf.GetEntityAtPosition(lo + i) == team[i];
      assert team[i] in occ;
      var k :| 0 <= k < |occ| && occ[k] == team[i];
      assert Eligible(occ[k]);
    }
    if !NoneAlive(occ) {
      var k :| 0 <= k < |occ| && Eligible(occ[k]);
      assert occ[k] in occ;
      var p :| lo <= p < lo + 4 && bf.GetEntityAtPosition(p) == occ[k];
      assert At(line, p - lo) == occ[k];
      assert p - lo < |line| && line[p - lo] == team[p - lo];
      assert Eligible(team[p - lo]);
    }
  }

  /**
   * With both teams of at most four, every member fielded and standing
   * on its side tile by tile, the turn manager's verdict (one side's
   * tiles hold nobody alive) is the combat system's (some result).
   */
  lemma VerdictsAgree(bf: Battlefield, players: seq<Entity?>, enemies: seq<Entity?>)
    requires bf.Valid()
    requires |players| <= 4 && forall i :: 0 <= i < |players| && players[i] != null ==> players[i].position != null
    requires |enemies| <= 4 && forall i :: 0 <= i < |enemies| && enemies[i] != null ==> enemies[i].position != null
    requires forall j :: 0 <= j < 4 ==>
               bf.GetEntityAtPosition(j) == At(Line(players), j) &&
               bf.GetEntityAtPosition(4 + j) == At(Line(enemies), j)
    ensures (NoneAlive(bf.Occupants(0, 4)) || NoneAlive(bf.Occupants(4, MaxTiles))) <==>
            Outcome(players, enemies) != NoResult
  {
    SideVerdict(bf, players, 0);
    SideVerdict(bf, enemies, 4);
  }

  // ----- Escaping -----

  /** The sum of the initiatives of a list of turns. */
  function SumInitiative(ts: seq<Turn>): int
    decreases |ts|
  {
    if ts == [] then 0 else SumInitiative(ts[..|ts| - 1]) + ts[|ts| - 1].initiative
  }

  /** Integer mean of the current Speed of a team's living members with stats; 0 when none. */
  function AverageSpeed(team: seq<Entity?>): int
    reads Frame(team)
  {
    var ts := TurnsFor(team);
    if |ts| > 0 then TruncDiv(SumInitiative(ts), |ts|) else 0
  }

  /** Fifty percent, five points per point of average Speed in the players' favour, kept within 10..90. */
  function ChanceFor(playerSpeed: int, enemySpeed: int): (chance: int)
    ensures 10 <= chance <= 90
  {
    Max(10, Min(90, 50 + 5 * (playerSpeed - enemySpeed)))
  }

  function EscapeChance(players: seq<Entity?>, enemies: seq<Entity?>): int
    reads Frame(players), Frame(enemies)
  {
    ChanceFor(AverageSpeed(players), AverageSpeed(enemies))
  }

  /** Faster players never lower the chance and faster enemies never raise it; equal speeds give even odds. */
  lemma ChanceMonotone(p1: int, p2: int, e1: int, e2: int)
    requires p1 <= p2 && e2 <= e1
    ensures ChanceFor(p1, e1) <= ChanceFor(p2, e2)
    ensures ChanceFor(p1, p1) == 50
  {
  }

  /** Initiatives all within `lo..hi` sum to between `lo` and `hi` times their number. */
  lemma {:induction false} SumWithin(ts: seq<Turn>, lo: int, hi: int)
    requires forall i :: 0 <= i < |ts| ==> lo <= ts[i].initiative <= hi
    ensures lo * |ts| <= SumInitiative(ts) <= hi * |ts|
    decreases |ts|
  {
    if ts != [] {
      var init := ts[..|ts| - 1];
      SumWithin(init, lo, hi);
      assert lo * |ts| == lo * |init| + lo && hi * |ts| == hi * |init| + hi;
    }
  }

  /** The average Speed lies between the slowest and the fastest living member's Speed. */
  lemma AverageWithinSpeeds(team: seq<Entity?>, lo: int, hi: int)
    requires TurnsFor(team) != []
    requires forall i :: 0 <= i < |team| && Eligible(team[i]) ==> lo <= team[i].stats.CurrentStat(Speed) <= hi
    ensures lo <= AverageSpeed(team) <= hi
  {
    var ts := TurnsFor(team);
    TurnsForSound(team);
    forall i | 0 <= i < |ts| ensures lo <= ts[i].initiative <= hi {
      assert ts[i] in ts;
      var k :| 0 <= k < |team| && team[k] == ts[i].entity;
    }
    SumWithin(ts, lo, hi);
    TruncDivWithin(SumInitiative(ts), |ts|, lo, hi);
  }

  // ----- Targets -----

  predicate Offensive(kind: ActionType)
  {
    kind == Attack || kind == Debuff
  }

  /** A buff or a move, or an action whose `self_only` property is set, targets its user. */
  predicate IsSelfTargetedAction(a: Action?)
    reads a
  {
    a != null && (a.kind == Buff || a.kind == Movement || a.GetProperty("self_only") > 0)
  }

  /** The first `n` members of a pool that are present, not dead, and a usable target. */
  function Candidates(pool: seq<Entity?>, n: int, a: Action, user: Entity, bf: Battlefield): (ts: seq<Entity>)
    requires 0 <= n <= |pool| && bf.Valid()
    reads a, bf, bf.positions, user, Parts(user), Members(pool), Frame(pool), Components(pool)
    decreases n
  {
    if n == 0 then []
    else
      var t := pool[n - 1];
      var keep := t != null && !(t.stats != null && t.stats.IsDead()) && a.Usable(user, t, bf);
      Candidates(pool, n - 1, a, user, bf) + (if keep then [t] else [])
  }

  /**
   * The candidates are exactly the pool's living members with stats the
   * action can be used on: the separate check for a dead target only
   * anticipates what the usability check demands anyway.
   */
  lemma {:induction false} CandidatesExact(pool: seq<Entity?>, n: int, a: Action, user: Entity, bf: Battlefield)
    requires 0 <= n <= |pool| && bf.Valid()
    ensures forall t: Entity :: t in Candidates(pool, n, a, user, bf) <==>
              t in pool[..n] && Eligible(t) && a.Usable(user, t, bf)
    decreases n
  {
    if n > 0 {
      CandidatesExact(pool, n - 1, a, user, bf);
      assert pool[..n] == pool[..n - 1] + [pool[n - 1]];
    }
  }

  /**
   * The targets offered for an action: none without an action or an
   * acting entity; the actor alone for a self-targeted action; otherwise
   * the candidates among the enemies for an offensive action and among
   * the players for any other.
   */
  function ValidTargets(a: Action?, user: Entity?, players: seq<Entity?>, enemies: seq<Entity?>, bf: Battlefield): seq<Entity>
    requires bf.Valid()
    reads a, user, bf, bf.positions, Parts(user)
    reads Members(players), Frame(players), Components(players), Members(enemies), Frame(enemies), Components(enemies)
  {
    if a == null || user == null then []
    else if IsSelfTargetedAction(a) then [user]
    else if Offensive(a.kind) then Candidates(enemies, |enemies|, a, user, bf)
    else Candidates(players, |players|, a, user, bf)
  }

  /**
   * What starting a fight leaves on the battlefield: the fielded players
   * then the fielded enemies in the placement list, member `j` of each
   * line on its side's tile `j` and every other tile free.
   */
  predicate Deployed(bf: Battlefield, l1: seq<Entity?>, l2: seq<Entity?>)
    reads bf, bf.positions
  {
    bf.Valid() &&
    bf.entities == Present(l1) + Present(l2) &&
    forall j :: 0 <= j < 4 ==> bf.GetEntityAtPosition(j) == At(l1, j) && bf.GetEntityAtPosition(4 + j) == At(l2, j)
  }

  /** The two placing loops of starting a fight, on a cleared battlefield. */
  method Deploy(bf: Battlefield, players: seq<Entity?>, enemies: seq<Entity?>)
    requires bf.Valid() && bf.entities == [] && bf.Grounded()
    requires forall p :: 0 <= p < MaxTiles ==> bf.positions[p] == Empty
    modifies bf, bf.positions, Members(players), Components(players), Members(enemies), Components(enemies)
    ensures Deployed(bf, old(Line(players)), old(Line(enemies)))
    ensures old(Bounded(Lineup(players)) && Bounded(Lineup(enemies))) ==> bf.Grounded()
    ensures unchanged(Members(players)) && unchanged(Members(enemies))
    ensures Aimed(old(Pointers(Line(players))), 0, old(Pointers(Line(enemies))))
    ensures Aimed(old(Pointers(Line(enemies))), 4, [])
  {
    ghost var l1 := Line(players);
    ghost var l2 := Line(enemies);
    ghost var aims := Pointers(l1);
    ghost var moved := Pointers(l2);
    ghost var start := bf.positions[..];
    label Placing:
    Field(bf, players, 0);
    assert [] + Present(l1) == Present(l1);
    ghost var placed := bf.entities;
    assert placed == Present(l1);
    forall j | 0 <= j < |enemies| && enemies[j] != null
      ensures enemies[j].position == old@Placing(enemies[j].position)
      ensures enemies[j].position != null ==> enemies[j].position.maxPosition == old@Placing(enemies[j].position.maxPosition)
    {
      var c := enemies[j].position;
      if c != null && c in Components(players) {
        var i :| 0 <= i < |players| && players[i] != null && players[i].position == c;
      }
    }
    assert Line(enemies) == l2;
    assert Pointers(l2) == moved;
    FieldEnemies(bf, enemies, l1, start, aims);
  }

  /**
   * The second placing loop of starting a fight, once the players'
   * line `l1` is seated: the enemies take tiles 4-7, and only the
   * players sharing a component with the enemies' line lose their aim.
   */
  method FieldEnemies(bf: Battlefield, enemies: seq<Entity?>, ghost l1: seq<Entity?>, ghost start: seq<int>,
                      ghost aims: seq<PositionComponent?>)
    requires bf.Valid() && bf.entities == Present(l1) && |l1| <= 4
    requires |start| == MaxTiles && forall q :: 0 <= q < MaxTiles ==> start[q] == Empty
    requires SeatedUpTo(bf.positions[..], start, l1, |l1|, 0, 0)
    requires Aimed(aims, 0, [])
    modifies bf, bf.positions, Members(enemies), Components(enemies)
    ensures Deployed(bf, l1, old(Line(enemies)))
    ensures old(bf.Grounded() && Bounded(Lineup(enemies))) ==> bf.Grounded()
    ensures unchanged(Members(enemies))
    ensures Aimed(aims, 0, old(Pointers(Line(enemies)))) && Aimed(old(Pointers(Line(enemies))), 4, [])
  {
    ghost var l2 := Line(enemies);
    ghost var moved := Pointers(l2);
    ghost var mid := bf.positions[..];
    Field(bf, enemies, 4);
    DeployedOn(bf, mid, start, l1, l2);
    forall c | c in aims && c != null && c !in moved
      ensures c.position == old(c.position) && c.maxPosition == old(c.maxPosition)
    {
      if c in Components(enemies) {
        var j :| 0 <= j < |enemies| && enemies[j] != null && enemies[j].position == c;
      }
    }
  }

  /** Seating two lines from a free battlefield, read back through the battlefield's own lookup. */
  lemma DeployedOn(bf: Battlefield, mid: seq<int>, start: seq<int>, l1: seq<Entity?>, l2: seq<Entity?>)
    requires bf.Valid() && bf.entities == Present(l1) + Present(l2)
    requires |start| == MaxTiles && forall q :: 0 <= q < MaxTiles ==> start[q] == Empty
    requires |l1| <= 4 && |l2| <= 4
    requires SeatedUpTo(mid, start, l1, |l1|, 0, 0)
    requires SeatedUpTo(bf.positions[..], mid, l2, |l2|, 4, |Present(l1)|)
    ensures Deployed(bf, l1, l2)
  {
    DeployedTiles(bf.positions[..], mid, start, l1, l2);
    forall p | 0 <= p < MaxTiles
      ensures bf.GetEntityAtPosition(p) == Holder(bf.positions[..], bf.entities, p)
    {
    }
  }

  /**
   * The turn order of round 1 for a list of combatants: every living one
   * with stats in the roster, the fastest on turn and the rest queued.
   */
  predicate Queued(turns: TurnManager, es: seq<Entity?>)
    reads turns, Frame(es)
  {
    turns.round == 1 && turns.roster == Living(es) &&
    (TurnsFor(es) == [] ==> turns.current == null && turns.queue == []) &&
    (TurnsFor(es) != [] ==> turns.current == Top(TurnsFor(es)).entity && turns.queue == Popped(TurnsFor(es)))
  }

  // ----- The combat system -----

  class CombatSystem {
    const battlefield: Battlefield
    const turns: TurnManager
    var playerTeam: seq<Entity?>
    var enemyTeam: seq<Entity?>
    var state: CombatState

    /** A fresh, empty battlefield and turn manager; combat not started. */
    constructor()
      ensures fresh(battlefield) && fresh(battlefield.positions) && fresh(turns)
      ensures battlefield.Valid() && battlefield.Grounded() && battlefield.entities == []
      ensures turns.queue == [] && turns.current == null && turns.roster == [] && turns.round == 0
      ensures playerTeam == [] && enemyTeam == [] && state == NotStarted
    {
      battlefield := new Battlefield();
      turns := new TurnManager();
      playerTeam := [];
      enemyTeam := [];
      state := NotStarted;
    }

    /** Identity with a member of the player team. */
    predicate IsPlayerEntity(e: Entity?)
      reads this
    {
      e in playerTeam
    }

    /** Both on the player team, or both off it. */
    predicate AreAllies(a: Entity?, b: Entity?)
      reads this
    {
      IsPlayerEntity(a) == IsPlayerEntity(b)
    }

    /** Being allies is an equivalence: the two classes are the player team and everyone else. */
    lemma AlliesEquivalence(a: Entity?, b: Entity?, c: Entity?)
      ensures AreAllies(a, a)
      ensures AreAllies(a, b) ==> AreAllies(b, a)
      ensures AreAllies(a, b) && AreAllies(b, c) ==> AreAllies(a, c)
    {
    }

    /** Whose turn the state machine waits for next: a player's selection, or the enemy's. */
    function NextState(next: Entity?): CombatState
      reads this
    {
      if next != null && IsPlayerEntity(next) then SelectingAction else EnemyTurn
    }

    /** Clears the battlefield and the turn manager, drops both teams and returns to the start. */
    method Reset()
      requires battlefield.Valid()
      modifies this`playerTeam, this`enemyTeam, this`state, battlefield, battlefield.positions, turns
      ensures battlefield.entities == [] && forall p :: 0 <= p < MaxTiles ==> battlefield.positions[p] == Empty
      ensures battlefield.Valid() && battlefield.Coherent() && battlefield.Grounded()
      ensures turns.queue == [] && turns.current == null && turns.roster == [] && turns.round == 0
      ensures playerTeam == [] && enemyTeam == [] && state == NotStarted
    {
      battlefield.Clear();
      turns.Reset();
      playerTeam := [];
      enemyTeam := [];
      state := NotStarted;
    }

    /**
     * Starts a fight: resets, stores the teams, places the first four
     * fielded players on tiles 0-3 and the first four fielded enemies on
     * tiles 4-7, member `j` on its side's tile `j`, queues every living
     * member with stats for round 1 and waits for an action.
     */
    method StartCombat(players: seq<Entity?>, enemies: seq<Entity?>)
      requires battlefield.Valid()
      modifies this`playerTeam, this`enemyTeam, this`state, battlefield, battlefield.positions, turns
      modifies Members(players), Components(players), Members(enemies), Components(enemies)
      ensures playerTeam == players && enemyTeam == enemies && state == SelectingAction
      ensures unchanged(Members(players)) && unchanged(Members(enemies))
      ensures Deployed(battlefield, old(Line(players)), old(Line(enemies)))
      ensures Aimed(old(Pointers(Line(players))), 0, old(Pointers(Line(enemies))))
      ensures Aimed(old(Pointers(Line(enemies))), 4, [])
      ensures Queued(turns, players + enemies)
    {
      ghost var l1 := Line(players);
      ghost var l2 := Line(enemies);
      ghost var p1, p2 := Pointers(l1), Pointers(l2);
      Reset();
      Store(players, enemies, l1, l2, p1, p2);
    }

    /** Storing the teams after the reset, then starting the fight as `Setup` does. */
    method Store(players: seq<Entity?>, enemies: seq<Entity?>, ghost l1: seq<Entity?>, ghost l2: seq<Entity?>,
                 ghost p1: seq<PositionComponent?>, ghost p2: seq<PositionComponent?>)
      requires battlefield.Valid() && battlefield.entities == [] && battlefield.Grounded()
      requires forall p :: 0 <= p < MaxTiles ==> battlefield.positions[p] == Empty
      requires l1 == Line(players) && l2 == Line(enemies) && p1 == Pointers(l1) && p2 == Pointers(l2)
      modifies this`playerTeam, this`enemyTeam, this`state, battlefield, battlefield.positions, turns
      modifies Members(players), Components(players), Members(enemies), Components(enemies)
      ensures playerTeam == players && enemyTeam == enemies && state == SelectingAction
      ensures unchanged(Members(players)) && unchanged(Members(enemies))
      ensures Deployed(battlefield, l1, l2)
      ensures Aimed(p1, 0, p2) && Aimed(p2, 4, [])
      ensures Queued(turns, players + enemies)
    {
      playerTeam := players;
      enemyTeam := enemies;
      Setup(players, enemies, l1, l2, p1, p2);
    }

    /**
     * Starting a fight after the reset, with `l1` and `l2` the two teams'
     * lines and `p1` and `p2` their components: both sides placed, the
     * combatants queued for round 1, waiting for an action.
     */
    method Setup(players: seq<Entity?>, enemies: seq<Entity?>, ghost l1: seq<Entity?>, ghost l2: seq<Entity?>,
                 ghost p1: seq<PositionComponent?>, ghost p2: seq<PositionComponent?>)
      requires battlefield.Valid() && battlefield.entities == [] && battlefield.Grounded()
      requires forall p :: 0 <= p < MaxTiles ==> battlefield.positions[p] == Empty
      requires l1 == Line(players) && l2 == Line(enemies) && p1 == Pointers(l1) && p2 == Pointers(l2)
      modifies this`state, battlefield, battlefield.positions, turns
      modifies Members(players), Components(players), Members(enemies), Components(enemies)
      ensures state == SelectingAction
      ensures unchanged(Members(players)) && unchanged(Members(enemies))
      ensures Deployed(battlefield, l1, l2)
      ensures old(Bounded(Lineup(players)) && Bounded(Lineup(enemies))) ==> battlefield.Grounded()
      ensures Aimed(p1, 0, p2) && Aimed(p2, 4, [])
      ensures Queued(turns, players + enemies)
    {
      Deploy(battlefield, players, enemies);
      Begin(players + enemies, l1, l2, p1, p2);
    }

    /**
     * The last steps of starting a fight: queue the combatants for round 1
     * and wait for an action.  The battlefield and the components stay as
     * the placing left them.
     */
    method Begin(es: seq<Entity?>, ghost l1: seq<Entity?>, ghost l2: seq<Entity?>,
                 ghost p1: seq<PositionComponent?>, ghost p2: seq<PositionComponent?>)
      modifies this`state, turns
      ensures state == SelectingAction
      ensures Queued(turns, es)
      ensures old(Deployed(battlefield, l1, l2)) ==> Deployed(battlefield, l1, l2)
      ensures old(battlefield.Grounded()) ==> battlefield.Grounded()
      ensures old(Aimed(p1, 0, p2) && Aimed(p2, 4, [])) ==> Aimed(p1, 0, p2) && Aimed(p2, 4, [])
    {
      state := SelectingAction;
      turns.Initialize(es);
    }

    /** Defeat when no player is alive with stats, else victory when no enemy is, else none. */
    method CheckCombatResult() returns (r: CombatResult)
      ensures r == Outcome(playerTeam, enemyTeam)
    {
      var allPlayersDefeated := true;
      var i := 0;
      while i < |playerTeam| && allPlayersDefeated
        invariant 0 <= i <= |playerTeam|
        invariant allPlayersDefeated <==> forall j :: 0 <= j < i ==> !Eligible(playerTeam[j])
      {
        var e := playerTeam[i];
        if e != null && e.stats != null && !e.stats.IsDead() {
          allPlayersDefeated := false;
        }
        i := i + 1;
      }
      var allEnemiesDefeated := true;
      i := 0;
      while i < |enemyTeam| && allEnemiesDefeated
        invariant 0 <= i <= |enemyTeam|
        invariant allEnemiesDefeated <==> forall j :: 0 <= j < i ==> !Eligible(enemyTeam[j])
      {
        var e := enemyTeam[i];
        if e != null && e.stats != null && !e.stats.IsDead() {
          allEnemiesDefeated := false;
        }
        i := i + 1;
      }
      if allPlayersDefeated {
        r := PlayerDefeat;
      } else if allEnemiesDefeated {
        r := PlayerVictory;
      } else {
        r := NoResult;
      }
    }

    /** The targets offered for an action to the acting entity. */
    method GetValidTargets(action: Action?) returns (targets: seq<Entity>)
      requires battlefield.Valid()
      ensures targets == ValidTargets(action, turns.current, playerTeam, enemyTeam, battlefield)
    {
      targets := [];
      if action == null {
        return;
      }
      var current := turns.current;
      if current == null {
        return;
      }
      var offensive := action.kind == Attack || action.kind == Debuff;
      if action.kind == Buff || action.kind == Movement || action.GetProperty("self_only") > 0 {
        return [current];
      }
      var pool := if offensive then enemyTeam else playerTeam;
      var i := 0;
      while i < |pool|
        invariant 0 <= i <= |pool|
        invariant targets == Candidates(pool, i, action, current, battlefield)
      {
        var t := pool[i];
        if t != null && !(t.stats != null && t.stats.IsDead()) {
          if action.Usable(current, t, battlefield) {
            targets := targets + [t];
          }
        }
        i := i + 1;
      }
    }

    /**
     * An escape attempt: one roll of 1-100 against the escape chance.
     * Success ends the fight; failure costs the acting entity its turn.
     */
    method TryEscape(rng: Rng, cursor: nat) returns (escaped: bool, next: nat)
      modifies this`state, turns
      ensures next == cursor + 1
      ensures escaped <==> Percent(rng(cursor)) <= EscapeChance(playerTeam, enemyTeam)
      ensures escaped ==> state == Ended && unchanged(turns)
      ensures !escaped ==> turns.Passed(Died(old(turns.current))) && state == NextState(turns.current)
    {
      ghost var chance := EscapeChance(playerTeam, enemyTeam);
      escaped, next := RollEscape(rng, cursor);
      assert unchanged(Frame(playerTeam)) && unchanged(Frame(enemyTeam));
      assert chance == EscapeChance(playerTeam, enemyTeam);
      assert forall o :: o in Frame(playerTeam) || o in Frame(enemyTeam) ==> o as object != this && o as object != turns;
      if escaped {
        state := Ended;
      } else {
        PassTurn();
      }
    }

    /**
     * The summed current Speed of a team's living members with stats, and
     * their number; their truncated quotient is the team's average speed.
     */
    static method Tally(team: seq<Entity?>) returns (total: int, count: int)
      ensures total == SumInitiative(TurnsFor(team)) && count == |TurnsFor(team)|
      ensures (if count > 0 then TruncDiv(total, count) else 0) == AverageSpeed(team)
    {
      total, count := 0, 0;
      var i := 0;
      while i < |team|
        invariant 0 <= i <= |team|
        invariant total == SumInitiative(TurnsFor(team[..i])) && count == |TurnsFor(team[..i])|
      {
        assert team[..i + 1][..i] == team[..i];
        var e := team[i];
        assert team[..i + 1][i] == e;
        ghost var ts := TurnsFor(team[..i]);
        if e != null && e.stats != null && !e.stats.IsDead() {
          var speed := e.stats.CurrentStat(Speed);
          assert TurnsFor(team[..i + 1]) == ts + [TurnOf(e)];
          assert (ts + [TurnOf(e)])[..|ts|] == ts;
          total := total + speed;
          count := count + 1;
        } else {
          assert TurnsFor(team[..i + 1]) == ts;
        }
        i := i + 1;
      }
      assert team[..i] == team;
    }

    /**
     * The escape roll: the average speeds of the living members with
     * stats, truncated, give the chance, and a roll of 1 to 100 at or
     * under it escapes.
     */
    method RollEscape(rng: Rng, cursor: nat) returns (escaped: bool, next: nat)
      ensures next == cursor + 1
      ensures escaped <==> Percent(rng(cursor)) <= EscapeChance(playerTeam, enemyTeam)
    {
      var playerTotal, playerCount := Tally(playerTeam);
      assert forall o :: o in Frame(playerTeam) ==> allocated(o);
      var enemyTotal, enemyCount := Tally(enemyTeam);
      var playerAvg := if playerCount > 0 then TruncDiv(playerTotal, playerCount) else 0;
      var enemyAvg := if enemyCount > 0 then TruncDiv(enemyTotal, enemyCount) else 0;
      var chance := 50 + 5 * (playerAvg - enemyAvg);
      chance := Max(10, Min(90, chance));
      assert chance == EscapeChance(playerTeam, enemyTeam);
      var roll := Percent(rng(cursor));
      next := cursor + 1;
      escaped := roll <= chance;
    }

    /** Ends the current turn and hands the state machine to whoever is on turn next. */
    method PassTurn()
      modifies this`state, turns
      ensures turns.Passed(Died(old(turns.current))) && state == NextState(turns.current)
    {
      turns.EndTurn();
      var nextEntity := turns.current;
      if nextEntity != null && nextEntity in playerTeam {
        state := SelectingAction;
      } else {
        state := EnemyTurn;
      }
      assert forall o :: o in Frame(turns.roster) ==> o as object != this;
    }

    /**
     * Executes the acting entity's chosen action.  Without an actor or an
     * action nothing happens.  A failed action leaves the turn with the
     * actor and waits for another choice.  A successful one ends the turn
     * and then ends the fight if it is decided, or waits on whoever acts
     * next.
     */
    method ProcessTurn(action: Action?, target: Entity?, keys: seq<string>, rng: Rng, cursor: nat)
      returns (success: bool, next: nat)
      requires battlefield.Grounded()
      requires action != null ==> IsKeyOrder(keys, action.properties)
      requires (action != null && turns.current != null && action.MovesUser() &&
                !action.Usable(turns.current, target, battlefield)) ==> turns.current.position != null
      modifies this`state, turns, action, Touched(turns.current, target, battlefield)
      ensures battlefield.Grounded()
      ensures action == null || old(turns.current) == null ==>
                !success && next == cursor && state == old(state) && unchanged(turns)
      ensures success ==>
                old(action.Usable(turns.current, target, battlefield)) && !Missed(old(action.accuracy), rng(cursor))
      ensures action != null && old(turns.current) != null && !success ==>
                state == SelectingAction && unchanged(turns) &&
                unchanged(old(Touched(turns.current, target, battlefield)))
      ensures success ==> turns.Passed(Died(old(turns.current)))
      ensures success ==>
                state == (if Outcome(playerTeam, enemyTeam) != NoResult then Ended else NextState(turns.current))
      ensures action != null && old(turns.current) != null &&
              old(action.Usable(turns.current, target, battlefield)) && !Missed(action.accuracy, rng(cursor)) ==>
                action.effects ==
                  if old(action.effects) == [] then Synthesised(action.kind, action.properties, keys) else old(action.effects)
      ensures action != null && old(turns.current) != null &&
              old(action.Usable(turns.current, target, battlefield)) && !Missed(action.accuracy, rng(cursor)) ==>
                var t := RunAll(old(Snap(turns.current, target, battlefield)), action.effects, rng,
                                if action.accuracy < 100 then cursor + 1 else cursor);
                Snap(old(turns.current), target, battlefield) == t.scene && next == t.next &&
                (success <==> action.hasCallback || true in t.fired)
    {
      var current := turns.current;
      if current == null || action == null {
        return false, cursor;
      }
      success, next := Attempt(action, current, target, keys, rng, cursor);
    }

    /** `ProcessTurn` once an acting entity and an action are known. */
    method Attempt(action: Action, current: Entity, target: Entity?, keys: seq<string>, rng: Rng, cursor: nat)
      returns (success: bool, next: nat)
      requires current == turns.current
      requires battlefield.Grounded()
      requires IsKeyOrder(keys, action.properties)
      requires action.MovesUser() && !action.Usable(current, target, battlefield) ==> current.position != null
      modifies this`state, turns, action, Touched(current, target, battlefield)
      ensures battlefield.Grounded()
      ensures success ==> old(action.Usable(current, target, battlefield)) && !Missed(old(action.accuracy), rng(cursor))
      ensures !success ==>
                state == SelectingAction && unchanged(turns) && unchanged(old(Touched(current, target, battlefield)))
      ensures success ==> turns.Passed(Died(current))
      ensures success ==>
                state == (if Outcome(playerTeam, enemyTeam) != NoResult then Ended else NextState(turns.current))
      ensures old(action.Usable(current, target, battlefield)) && !Missed(action.accuracy, rng(cursor)) ==>
                action.effects ==
                  if old(action.effects) == [] then Synthesised(action.kind, action.properties, keys) else old(action.effects)
      ensures old(action.Usable(current, target, battlefield)) && !Missed(action.accuracy, rng(cursor)) ==>
                var t := RunAll(old(Snap(current, target, battlefield)), action.effects, rng,
                                if action.accuracy < 100 then cursor + 1 else cursor);
                Snap(current, target, battlefield) == t.scene && next == t.next &&
                (success <==> action.hasCallback || true in t.fired)
    {
      success, next := Act(action, current, target, keys, rng, cursor);
      Conclude(success, current, target);
    }

    /**
     * The acting entity uses the action on the target while the state
     * machine shows the action executing.  Only the action's counters, the
     * two parties' components and the slot table change besides the
     * state; the teams and the turn manager do not.
     */
    method Act(action: Action, current: Entity, target: Entity?, keys: seq<string>, rng: Rng, cursor: nat)
      returns (fired: bool, next: nat)
      requires battlefield.Grounded()
      requires IsKeyOrder(keys, action.properties)
      requires action.MovesUser() && !action.Usable(current, target, battlefield) ==> current.position != null
      modifies this`state, action`effects, action`currentCooldown, Touched(current, target, battlefield)
      ensures battlefield.Grounded()
      ensures state == ExecutingAction && playerTeam == old(playerTeam) && enemyTeam == old(enemyTeam)
      ensures unchanged(turns)
      ensures fired ==> old(action.Usable(current, target, battlefield)) && !Missed(old(action.accuracy), rng(cursor))
      ensures !fired ==> unchanged(old(Touched(current, target, battlefield)))
      ensures old(action.Usable(current, target, battlefield)) && !Missed(action.accuracy, rng(cursor)) ==>
                action.effects ==
                  if old(action.effects) == [] then Synthesised(action.kind, action.properties, keys) else old(action.effects)
      ensures old(action.Usable(current, target, battlefield)) && !Missed(action.accuracy, rng(cursor)) ==>
                var t := RunAll(old(Snap(current, target, battlefield)), action.effects, rng,
                                if action.accuracy < 100 then cursor + 1 else cursor);
                Snap(current, target, battlefield) == t.scene && next == t.next &&
                (fired <==> action.hasCallback || true in t.fired)
    {
      assert this !in Touched(current, target, battlefield) && turns !in Touched(current, target, battlefield) &&
             action !in Touched(current, target, battlefield);
      ghost var usable;
      fired, next, usable := action.Execute(current, target, battlefield, keys, rng, cursor);
      state := ExecutingAction;
    }

    /**
     * What follows an action: a successful one ends the turn, a failed one
     * returns to action selection.  Neither touches the parties' components
     * or the slot table.
     */
    method Conclude(success: bool, ghost user: Entity, ghost target: Entity?)
      requires battlefield.Grounded()
      modifies this`state, turns
      ensures battlefield.Grounded()
      ensures Snap(user, target, battlefield) == old(Snap(user, target, battlefield))
      ensures unchanged(Touched(user, target, battlefield))
      ensures success ==> turns.Passed(Died(old(turns.current)))
      ensures success ==>
                state == (if Outcome(playerTeam, enemyTeam) != NoResult then Ended else NextState(turns.current))
      ensures !success ==> state == SelectingAction && unchanged(turns)
    {
      assert this !in Touched(user, target, battlefield) && turns !in Touched(user, target, battlefield);
      if success {
        FinishTurn();
      } else {
        state := SelectingAction;
      }
    }

    /**
     * After a successful action: the turn ends, and the fight ends when a
     * side has nobody left alive, else the state machine waits for whoever
     * is on turn next.
     */
    method FinishTurn()
      modifies this`state, turns
      ensures turns.Passed(Died(old(turns.current)))
      ensures state == (if Outcome(playerTeam, enemyTeam) != NoResult then Ended else NextState(turns.current))
    {
      turns.EndTurn();
      var result := Outcome(playerTeam, enemyTeam);
      if result != NoResult {
        state := Ended;
      } else {
        var nextEntity := turns.current;
        if nextEntity != null && nextEntity in playerTeam {
          state := SelectingAction;
        } else {
          state := EnemyTurn;
        }
      }
      assert forall o :: o in Frame(turns.roster) ==> o as object != this;
      assert forall o :: o in Frame(playerTeam) || o in Frame(enemyTeam) ==> o as object != this;
    }

    /**
     * An enemy's turn.  Refused when nobody acts or a player does.  The
     * enemy's choice of action always comes back empty, so the turn is
     * spent doing nothing and the state machine waits on whoever acts next.
     */
    method ProcessEnemyTurn() returns (ok: bool)
      modifies this`state, turns
      ensures ok <==> old(turns.current) != null && !IsPlayerEntity(old(turns.current))
      ensures !ok ==> state == old(state) && unchanged(turns)
      ensures ok ==> turns.Passed(Died(old(turns.current))) && state == NextState(turns.current)
    {
      var enemy := turns.current;
      if enemy == null || enemy in playerTeam {
        return false;
      }
      PassTurn();
      ok := true;
    }
  }
}
