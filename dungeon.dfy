/**
 * The floor generator: a grid of room slots filled by a random walk from
 * the entrance, fallbacks that convert rooms into the exit and the boss
 * room, extra links that close loops, treasure-room conversion,
 * encounter assignment, and a breadth-first reachability check that
 * links the exit when it cannot be reached.
 *
 * The generator's random engine is the stream `rng`, read at `cursor`:
 * one draw per direction shuffle, per normal-room description, per
 * loop decision and per treasure shuffle.
 */
module Dungeon {
  import opened Common
  import opened Encounters
  import opened Rooms
  import opened DungeonRules

  /** A grid cell, as (x, y). */
  type Cell = (int, int)

  /** Every step of `ps` follows a link. */
  ghost predicate LinkPath(ps: seq<Room>)
    reads ps
  {
    |ps| >= 1 && forall k :: 0 <= k < |ps| - 1 ==> ps[k + 1] in ps[k].connections
  }

  /** `ps` follows links from `from` to a room with id `id`. */
  ghost predicate ReachPath(ps: seq<Room>, from: Room, id: int)
    reads ps
  {
    LinkPath(ps) && ps[0] == from && ps[|ps| - 1].id == id
  }

  /** `std::numeric_limits<int>::max()`. */
  const IntMax: int := 0x7fff_ffff

  /** The grid distance from room `r` to cell (x, y). */
  function DistanceTo(r: Room, x: int, y: int): nat
    reads r
  {
    Manhattan(r.posX, r.posY, x, y)
  }

  /** The room the path recorded for `v` ends at, if any. */
  ghost function EndOf(paths: map<int, seq<Room>>, v: int): Room?
  {
    if v in paths && |paths[v]| > 0 then paths[v][|paths[v]| - 1] else null
  }

  /** A path that reaches a room extends along any link of that room. */
  lemma ReachPathSnoc(ps: seq<Room>, from: Room, id: int, next: Room)
    requires ReachPath(ps, from, id) && next in ps[|ps| - 1].connections
    ensures ReachPath(ps + [next], from, next.id)
  {
    var qs := ps + [next];
    forall k | 0 <= k < |qs| - 1
      ensures qs[k + 1] in qs[k].connections
    {
      if k < |ps| - 1 {
        assert qs[k] == ps[k] && qs[k + 1] == ps[k + 1];
      }
    }
  }

  /**
   * When no two rooms of `w` share an id, the marks a search leaves (as
   * `Reachable` describes them) cover every room linked from the start:
   * each link path from the start ends at an expanded room, whose id is
   * marked.  Without that uniqueness a room may be skipped because
   * another room with its id was marked first.
   */
  lemma {:induction false} SearchComplete(visited: set<int>, done: set<Room>, paths: map<int, seq<Room>>,
                                          start: Room, w: set<Room>, ps: seq<Room>)
    requires start in done && done <= w
    requires forall r :: r in w ==> forall c :: c in r.connections ==> c in w
    requires forall a, b :: a in w && b in w && a.id == b.id ==> a == b
    requires forall v :: v in visited ==> v in paths && ReachPath(paths[v], start, v) && EndOf(paths, v) in done
    requires forall r :: r in done ==> r.id in visited && forall c :: c in r.connections ==> c.id in visited
    requires LinkPath(ps) && ps[0] == start
    ensures ps[|ps| - 1] in done && ps[|ps| - 1].id in visited
    decreases |ps|
  {
    if |ps| > 1 {
      var qs := ps[..|ps| - 1];
      forall k | 0 <= k < |qs| - 1
        ensures qs[k + 1] in qs[k].connections
      {
        assert qs[k] == ps[k] && qs[k + 1] == ps[k + 1];
      }
      SearchComplete(visited, done, paths, start, w, qs);
      var prev, last := ps[|ps| - 2], ps[|ps| - 1];
      assert prev == qs[|qs| - 1] && last in prev.connections;
      var r := EndOf(paths, last.id);
      assert r in done && r.id == last.id;
    }
  }

  /** Every room of `ps` belongs to `w`. */
  predicate Within(ps: seq<Room>, w: set<Room>)
  {
    forall k :: 0 <= k < |ps| ==> ps[k] in w
  }

  /**
   * The search state explains its marks: every marked id is below `n`
   * and has a recorded path of rooms of `w` from `start`, ending at a
   * room that is expanded, waiting in the queue, or being expanded.
   */
  ghost predicate Traced(visited: set<int>, paths: map<int, seq<Room>>, start: Room, n: int,
                         done: set<Room>, queue: seq<Room>, current: Room?, w: set<Room>)
    reads w
  {
    forall v :: v in visited ==>
      (0 <= v < n && v in paths && Within(paths[v], w) && ReachPath(paths[v], start, v) &&
       (EndOf(paths, v) in done || EndOf(paths, v) in queue || EndOf(paths, v) == current))
  }

  /** Every waiting room belongs to `w`, has a marked id, and is where its id's path ends. */
  ghost predicate Queued(queue: seq<Room>, visited: set<int>, paths: map<int, seq<Room>>, w: set<Room>)
  {
    forall q :: q in queue ==> q in w && q.id in visited && EndOf(paths, q.id) == q
  }

  /** Every expanded room belongs to `w` and has a marked id, and so do its neighbours. */
  ghost predicate Expanded(done: set<Room>, visited: set<int>, w: set<Room>)
    reads done
  {
    forall r :: r in done ==> r in w && r.id in visited && forall c :: c in r.connections ==> c.id in visited
  }

  /** Marking a neighbour of the room being expanded and queueing it keeps the marks explained. */
  lemma TracedPush(visited: set<int>, paths: map<int, seq<Room>>, start: Room, n: int,
                   done: set<Room>, queue: seq<Room>, current: Room, next: Room, w: set<Room>)
    requires Traced(visited, paths, start, n, done, queue, current, w)
    requires current.id in visited && EndOf(paths, current.id) == current
    requires next in current.connections && next in w && next.id !in visited && 0 <= next.id < n
    ensures Traced(visited + {next.id}, paths[next.id := paths[current.id] + [next]], start, n,
                   done, queue + [next], current, w)
  {
    ReachPathSnoc(paths[current.id], start, current.id, next);
    var paths' := paths[next.id := paths[current.id] + [next]];
    forall v | v in visited + {next.id}
      ensures 0 <= v < n && v in paths' && Within(paths'[v], w) && ReachPath(paths'[v], start, v) &&
              (EndOf(paths', v) in done || EndOf(paths', v) in queue + [next] || EndOf(paths', v) == current)
    {
      if v != next.id {
        assert paths'[v] == paths[v];
      }
    }
  }

  /** Queueing a room with a new mark, and recording where its path ends, keeps the queue consistent. */
  lemma QueuedPush(queue: seq<Room>, visited: set<int>, paths: map<int, seq<Room>>, w: set<Room>,
                   next: Room, path: seq<Room>)
    requires Queued(queue, visited, paths, w) && next in w && next.id !in visited
    requires |path| > 0 && path[|path| - 1] == next
    ensures Queued(queue + [next], visited + {next.id}, paths[next.id := path], w)
  {
    forall q | q in queue + [next]
      ensures q in w && q.id in visited + {next.id} && EndOf(paths[next.id := path], q.id) == q
    {
      if q != next {
        assert q in queue && q.id != next.id;
      }
    }
  }

  /** A room with a marked id and marked neighbours can join the expanded rooms. */
  lemma ExpandedAdd(done: set<Room>, visited: set<int>, w: set<Room>, r: Room)
    requires Expanded(done, visited, w) && r in w && r.id in visited
    requires forall c :: c in r.connections ==> c.id in visited
    ensures Expanded(done + {r}, visited, w)
  {
  }

  /** More marks keep the expanded rooms consistent. */
  lemma ExpandedGrow(done: set<Room>, visited: set<int>, visited': set<int>, w: set<Room>)
    requires Expanded(done, visited, w) && visited <= visited'
    ensures Expanded(done, visited', w)
  {
  }

  /** A set of indices below `n` has at most `n` elements. */
  lemma {:induction false} CardBelow(s: set<int>, n: nat)
    requires forall v :: v in s ==> 0 <= v < n
    ensures |s| <= n
  {
    if n > 0 {
      CardBelow(s - {n - 1}, n - 1);
      assert s <= (s - {n - 1}) + {n - 1};
    } else {
      assert forall v :: v !in s;
      assert s == {};
    }
  }

  /** The grid of room slots, row by row: `g[y][x]` is cell (x, y). */
  type Grid = seq<seq<Room?>>

  /** A non-empty grid whose rows all have the width of the first. */
  predicate Rect(g: Grid)
  {
    |g| >= 1 && |g[0]| >= 1 && forall y :: 0 <= y < |g| ==> |g[y]| == |g[0]|
  }

  predicate OnGrid(g: Grid, x: int, y: int)
    requires Rect(g)
  {
    0 <= x < |g[0]| && 0 <= y < |g|
  }

  /** Cell (x, y) lies on the grid and holds no room. */
  predicate Free(g: Grid, x: int, y: int)
    requires Rect(g)
  {
    OnGrid(g, x, y) && g[y][x] == null
  }

  /** Cell (x, y) lies on the grid and holds a room. */
  predicate Occupied(g: Grid, x: int, y: int)
    requires Rect(g)
  {
    OnGrid(g, x, y) && g[y][x] != null
  }

  /**
   * The position in `order` of the first direction that leads from
   * (x, y) to a free cell, or `|order|` when none does.
   */
  function FirstFree(g: Grid, order: seq<Dir>, x: int, y: int): (k: nat)
    requires Rect(g)
    ensures k <= |order|
    ensures k < |order| ==> Free(g, x + Dx(order[k]), y + Dy(order[k]))
    ensures forall j :: 0 <= j < k ==> !Free(g, x + Dx(order[j]), y + Dy(order[j]))
  {
    if order == [] then 0
    else if Free(g, x + Dx(order[0]), y + Dy(order[0])) then 0
    else 1 + FirstFree(g, order[1..], x, y)
  }

  /** No direction leads from (x, y) to a free cell. */
  predicate BoxedIn(g: Grid, x: int, y: int)
    requires Rect(g)
  {
    forall d: Dir :: !Free(g, x + Dx(d), y + Dy(d))
  }

  /** When a shuffled order of the four directions finds no free cell, none of the four leads to one. */
  lemma NoneFreeBoxedIn(g: Grid, code: nat, x: int, y: int)
    requires Rect(g)
    requires FirstFree(g, Shuffled(Directions, code), x, y) == 4
    ensures BoxedIn(g, x, y)
  {
    var order := Shuffled(Directions, code);
    forall d: Dir
      ensures !Free(g, x + Dx(d), y + Dy(d))
    {
      ShuffledDirections(code, d);
      var j :| 0 <= j < |order| && order[j] == d;
    }
  }

  /** Filling a free cell never frees a cell: a boxed-in cell stays boxed in. */
  lemma FillKeepsBoxedIn(g: Grid, x: int, y: int, r: Room, cx: int, cy: int)
    requires Rect(g) && OnGrid(g, x, y) && BoxedIn(g, cx, cy)
    ensures Rect(g[y := g[y][x := r]]) && BoxedIn(g[y := g[y][x := r]], cx, cy)
  {
    var h := g[y := g[y][x := r]];
    assert forall yy :: 0 <= yy < |h| ==> |h[yy]| == |g[yy]|;
    forall d: Dir
      ensures !Free(h, cx + Dx(d), cy + Dy(d))
    {
      assert !Free(g, cx + Dx(d), cy + Dy(d));
    }
  }

  /**
   * The rooms `rs`, standing on the cells `ps`, fill grid `g` consistently:
   * room `i` has id `i` and is the room on its cell, and every occupied
   * cell holds the room whose index is its id and is that room's cell.
   */
  ghost predicate Placed(rs: seq<Room>, ps: seq<Cell>, g: Grid)
  {
    Rect(g) && |ps| == |rs| &&
    (forall i :: 0 <= i < |rs| ==> rs[i].id == i) &&
    (forall i :: 0 <= i < |ps| ==> OnGrid(g, ps[i].0, ps[i].1) && g[ps[i].1][ps[i].0] == rs[i]) &&
    (forall y, x :: 0 <= y < |g| && 0 <= x < |g[y]| && g[y][x] != null ==>
       0 <= g[y][x].id < |rs| && rs[g[y][x].id] == g[y][x] && ps[g[y][x].id] == (x, y))
  }

  /** Appending a room with the next id on a free cell keeps the floor consistent. */
  lemma PlacedSnoc(rs: seq<Room>, ps: seq<Cell>, g: Grid, room: Room, x: int, y: int,
                   rs': seq<Room>, ps': seq<Cell>, g': Grid)
    requires Placed(rs, ps, g) && Free(g, x, y) && room.id == |rs|
    requires rs' == rs + [room] && ps' == ps + [(x, y)] && g' == g[y := g[y][x := room]]
    ensures Placed(rs', ps', g')
  {
    assert Rect(g') by {
      assert forall yy :: 0 <= yy < |g'| ==> |g'[yy]| == |g[yy]|;
    }
    forall i | 0 <= i < |ps'|
      ensures rs'[i].id == i && OnGrid(g', ps'[i].0, ps'[i].1) && g'[ps'[i].1][ps'[i].0] == rs'[i]
    {
      if i < |rs| {
        assert ps'[i] == ps[i] && rs'[i] == rs[i];
        assert g[ps[i].1][ps[i].0] == rs[i];
      }
    }
    forall yy, xx | 0 <= yy < |g'| && 0 <= xx < |g'[yy]| && g'[yy][xx] != null
      ensures 0 <= g'[yy][xx].id < |rs'| && rs'[g'[yy][xx].id] == g'[yy][xx] && ps'[g'[yy][xx].id] == (xx, yy)
    {
      if yy != y || xx != x {
        assert g'[yy][xx] == g[yy][xx];
      }
    }
  }

  /** Putting a room with id `k` in place of room `k`, on its cell, keeps the floor consistent. */
  lemma PlacedReplace(rs: seq<Room>, ps: seq<Cell>, g: Grid, k: int, room: Room, rs': seq<Room>, g': Grid)
    requires Placed(rs, ps, g) && 0 <= k < |rs| && room.id == k
    requires rs' == rs[k := room] && g' == g[ps[k].1 := g[ps[k].1][ps[k].0 := room]]
    ensures Placed(rs', ps, g')
  {
    var (x, y) := ps[k];
    assert Rect(g') by {
      assert forall yy :: 0 <= yy < |g'| ==> |g'[yy]| == |g[yy]|;
    }
    forall i | 0 <= i < |ps| && i != k
      ensures OnGrid(g', ps[i].0, ps[i].1) && g'[ps[i].1][ps[i].0] == rs'[i]
    {
      assert g[ps[i].1][ps[i].0] == rs[i];
      assert ps[rs[i].id] == ps[i];
    }
    forall yy, xx | 0 <= yy < |g'| && 0 <= xx < |g'[yy]| && g'[yy][xx] != null
      ensures 0 <= g'[yy][xx].id < |rs'| && rs'[g'[yy][xx].id] == g'[yy][xx] && ps[g'[yy][xx].id] == (xx, yy)
    {
      if yy != y || xx != x {
        assert g'[yy][xx] == g[yy][xx];
        assert g[yy][xx].id != k;
      }
    }
  }

  /** The entrance, exit and boss rooms, when set, are rooms of `rs` of those types, each at the index its id names. */
  ghost predicate SpecialsOn(rs: seq<Room>, entrance: Room?, exit: Room?, boss: Room?)
  {
    (entrance != null ==> |rs| > 0 && rs[0] == entrance && entrance.kind == Entrance) &&
    (exit != null ==> 0 <= exit.id < |rs| && rs[exit.id] == exit && exit.kind == Exit) &&
    (boss != null ==> 0 <= boss.id < |rs| && rs[boss.id] == boss && boss.kind == Boss)
  }

  /** Appending a room keeps the special rooms where they are. */
  lemma SpecialsSnoc(rs: seq<Room>, entrance: Room?, exit: Room?, boss: Room?, room: Room)
    requires SpecialsOn(rs, entrance, exit, boss)
    ensures SpecialsOn(rs + [room], entrance, exit, boss)
  {
  }

  /** Replacing a normal room keeps the special rooms where they are. */
  lemma SpecialsReplace(rs: seq<Room>, entrance: Room?, exit: Room?, boss: Room?, k: int, room: Room)
    requires SpecialsOn(rs, entrance, exit, boss) && 0 <= k < |rs| && rs[k].kind == Normal
    ensures SpecialsOn(rs[k := room], entrance, exit, boss)
  {
  }

  /** Cell (x, y) holds a normal room. */
  predicate NormalAt(g: Grid, x: int, y: int)
    requires Rect(g)
  {
    Occupied(g, x, y) && g[y][x].kind == Normal
  }

  /** Cell (x1, y1) comes before cell (x2, y2) in row-major order. */
  predicate Before(x1: int, y1: int, x2: int, y2: int)
  {
    y1 < y2 || (y1 == y2 && x1 < x2)
  }

  /**
   * Cell (fx, fy) holds the normal room farthest from (ex, ey), at a
   * positive distance, and the first such cell in row-major order.
   */
  ghost predicate Farthest(g: Grid, ex: int, ey: int, fx: int, fy: int)
    requires Rect(g)
  {
    NormalAt(g, fx, fy) && Manhattan(fx, fy, ex, ey) > 0 &&
    forall y, x :: NormalAt(g, x, y) ==>
      Manhattan(x, y, ex, ey) <= Manhattan(fx, fy, ex, ey) &&
      (Before(x, y, fx, fy) ==> Manhattan(x, y, ex, ey) < Manhattan(fx, fy, ex, ey))
  }

  /** At most one cell is the farthest. */
  lemma FarthestUnique(g: Grid, ex: int, ey: int, x1: int, y1: int, x2: int, y2: int)
    requires Rect(g) && Farthest(g, ex, ey, x1, y1) && Farthest(g, ex, ey, x2, y2)
    ensures x1 == x2 && y1 == y2
  {
    assert NormalAt(g, x1, y1) && NormalAt(g, x2, y2);
  }

  /**
   * What the farthest-room scan knows once it has looked at every cell
   * before (sx, sy): `best` is the largest distance of a scanned normal
   * room, or 0, and (fx, fy) is the first scanned cell at that distance,
   * or (-1, -1) when no scanned normal room is at a positive distance.
   */
  ghost predicate Scanned(g: Grid, ex: int, ey: int, sx: int, sy: int, fx: int, fy: int, best: int)
    requires Rect(g)
  {
    best >= 0 &&
    (best == 0 ==> fx == -1 && fy == -1) &&
    (best > 0 ==> NormalAt(g, fx, fy) && Manhattan(fx, fy, ex, ey) == best && Before(fx, fy, sx, sy)) &&
    forall y, x :: NormalAt(g, x, y) && Before(x, y, sx, sy) ==>
      Manhattan(x, y, ex, ey) <= best && (Before(x, y, fx, fy) ==> Manhattan(x, y, ex, ey) < best)
  }

  /** The end of a row is the start of the next. */
  lemma ScannedRow(g: Grid, ex: int, ey: int, y: int, fx: int, fy: int, best: int)
    requires Rect(g) && Scanned(g, ex, ey, |g[0]|, y, fx, fy, best)
    ensures Scanned(g, ex, ey, 0, y + 1, fx, fy, best)
  {
    forall yy, xx | NormalAt(g, xx, yy) && Before(xx, yy, 0, y + 1)
      ensures Before(xx, yy, |g[0]|, y)
    {
    }
  }

  /** When none of the four directions, in their listed order, leads from (x, y) to a normal room, none does. */
  lemma NoNormalBeside(g: Grid, x: int, y: int)
    requires Rect(g)
    requires forall j :: 0 <= j < |Directions| ==> !NormalAt(g, x + Dx(Directions[j]), y + Dy(Directions[j]))
    ensures forall d: Dir :: !NormalAt(g, x + Dx(d), y + Dy(d))
  {
    forall d: Dir
      ensures !NormalAt(g, x + Dx(d), y + Dy(d))
    {
      assert d == Directions[0] || d == Directions[1] || d == Directions[2] || d == Directions[3];
    }
  }

  /** The room on the cell next to (x, y) in direction `d`, or null when that cell is empty or off the grid. */
  function Neighbour(g: Grid, x: int, y: int, d: Dir): (r: Room?)
    requires Rect(g)
    ensures r != null <==> Occupied(g, x + Dx(d), y + Dy(d))
    ensures r != null ==> r == g[y + Dy(d)][x + Dx(d)]
  {
    if Occupied(g, x + Dx(d), y + Dy(d)) then g[y + Dy(d)][x + Dx(d)] else null
  }

  /** Extending a list of rooms keeps every id it had. */
  lemma IdsGrow(a: seq<Room>, b: seq<Room>, k: int)
    requires a <= b && k in IdsOf(a)
    ensures k in IdsOf(b)
  {
    var i :| 0 <= i < |a| && IdsOf(a)[i] == k;
    assert IdsOf(b)[i] == k;
  }

  /** `conns` links by id every room next to (x, y) in the first `n` listed directions. */
  ghost predicate LinksFirst(g: Grid, x: int, y: int, n: int, conns: seq<Room>)
    requires Rect(g)
  {
    forall j :: 0 <= j < n && j < |Directions| && Neighbour(g, x, y, Directions[j]) != null ==>
      Neighbour(g, x, y, Directions[j]).id in IdsOf(conns)
  }

  /** Growing the links and linking the neighbour in direction `n` extends `LinksFirst` by one direction. */
  lemma LinksFirstStep(g: Grid, x: int, y: int, n: int, before: seq<Room>, after: seq<Room>)
    requires Rect(g) && 0 <= n < |Directions| && LinksFirst(g, x, y, n, before) && before <= after
    requires Neighbour(g, x, y, Directions[n]) != null ==> Neighbour(g, x, y, Directions[n]).id in IdsOf(after)
    ensures LinksFirst(g, x, y, n + 1, after)
  {
    forall j | 0 <= j < n && Neighbour(g, x, y, Directions[j]) != null
      ensures Neighbour(g, x, y, Directions[j]).id in IdsOf(after)
    {
      IdsGrow(before, after, Neighbour(g, x, y, Directions[j]).id);
    }
  }

  /** The number of rooms on the grid (or on a list of rows). */
  function GridCount(g: Grid): nat
  {
    if g == [] then 0 else GridCount(g[..|g| - 1]) + RowCount(g[|g| - 1])
  }

  function RowCount(row: seq<Room?>): nat
  {
    if row == [] then 0 else RowCount(row[..|row| - 1]) + (if row[|row| - 1] != null then 1 else 0)
  }

  lemma RowCountSnoc(row: seq<Room?>, x: int)
    requires 0 <= x < |row|
    ensures RowCount(row[..x + 1]) == RowCount(row[..x]) + (if row[x] != null then 1 else 0)
  {
    assert row[..x + 1][..x] == row[..x];
  }

  /** The position of a direction in the listed order. */
  function DirIndex(d: Dir): (j: nat)
    ensures j < |Directions| && Directions[j] == d
  {
    match d
    case Right => 0
    case Down => 1
    case Left => 2
    case Up => 3
  }

  /**
   * What the walk keeps along `path`, its stack of cells: every room
   * after the entrance has the type its cell calls for, every cell on the
   * path holds a room, and every room's cell is on the path or boxed in.
   */
  ghost predicate WalkedOn(p: Params, rs: seq<Room>, ps: seq<Cell>, g: Grid, path: seq<Cell>)
  {
    Rect(g) && 1 <= |rs| == |ps| &&
    (forall i :: 1 <= i < |rs| ==> rs[i].kind == WalkKind(p, ps[i].0, ps[i].1)) &&
    (forall c :: c in path ==> Occupied(g, c.0, c.1)) &&
    (forall i :: 0 <= i < |ps| ==> ps[i] in path || BoxedIn(g, ps[i].0, ps[i].1))
  }

  /** Placing a room of the walk's type on a free cell and pushing that cell keeps the walk's invariant. */
  lemma WalkedPush(p: Params, rs: seq<Room>, ps: seq<Cell>, g: Grid, path: seq<Cell>, room: Room, x: int, y: int,
                   rs': seq<Room>, ps': seq<Cell>, g': Grid)
    requires WalkedOn(p, rs, ps, g, path) && Free(g, x, y) && room.kind == WalkKind(p, x, y)
    requires rs' == rs + [room] && ps' == ps + [(x, y)] && g' == g[y := g[y][x := room]]
    ensures WalkedOn(p, rs', ps', g', path + [(x, y)])
  {
    forall i | 0 <= i < |ps| && BoxedIn(g, ps[i].0, ps[i].1)
      ensures BoxedIn(g', ps[i].0, ps[i].1)
    {
      FillKeepsBoxedIn(g, x, y, room, ps[i].0, ps[i].1);
    }
    forall c | c in path
      ensures Occupied(g', c.0, c.1)
    {
      assert Occupied(g, c.0, c.1);
    }
  }

  /** Popping a boxed-in cell off the path keeps the walk's invariant. */
  lemma WalkedPop(p: Params, rs: seq<Room>, ps: seq<Cell>, g: Grid, path: seq<Cell>)
    requires WalkedOn(p, rs, ps, g, path) && path != []
    requires BoxedIn(g, path[|path| - 1].0, path[|path| - 1].1)
    ensures WalkedOn(p, rs, ps, g, path[..|path| - 1])
  {
    var rest := path[..|path| - 1];
    assert path == rest + [path[|path| - 1]];
    forall i | 0 <= i < |ps| && ps[i] !in rest
      ensures BoxedIn(g, ps[i].0, ps[i].1)
    {
      assert ps[i] in path || BoxedIn(g, ps[i].0, ps[i].1);
    }
  }

  /** The indices of the normal rooms of `rs`, in increasing order. */
  function NormalsOf(rs: seq<Room>): (ns: seq<int>)
    ensures forall k :: k in ns <==> 0 <= k < |rs| && rs[k].kind == Normal
    ensures forall i, j :: 0 <= i < j < |ns| ==> ns[i] < ns[j]
    decreases |rs|
  {
    if rs == [] then []
    else
      var last := |rs| - 1;
      var earlier := NormalsOf(rs[..last]);
      assert forall i :: 0 <= i < |earlier| ==> earlier[i] in earlier && earlier[i] < last;
      earlier + (if rs[last].kind == Normal then [last] else [])
  }

  /**
   * Of the rooms `rs0`, the first `n` indices of `order` were given
   * treasure rooms with the same id, and every other room was kept.
   */
  predicate Converted(rs0: seq<Room>, rs: seq<Room>, order: seq<int>, n: int)
  {
    |rs| == |rs0| && 0 <= n <= |order| &&
    forall k :: 0 <= k < |rs| ==>
      if k in order[..n] then rs[k].kind == Treasure && rs[k].id == rs0[k].id else rs[k] == rs0[k]
  }

  /** Every room of `rs` that replaced its counterpart in `rs0` is new to `w0`, without links and without encounter. */
  ghost predicate Renewed(rs0: seq<Room>, rs: seq<Room>, w0: set<Room>)
    reads set k | 0 <= k < |rs| :: rs[k]
  {
    forall k :: 0 <= k < |rs| && k < |rs0| && rs[k] != rs0[k] ==>
      rs[k] !in w0 && rs[k].connections == [] && rs[k].encounter == NoEncounter
  }

  /** Converting the next index of the order extends the conversion by one. */
  lemma ConvertedStep(rs0: seq<Room>, rs: seq<Room>, order: seq<int>, n: int, room: Room)
    requires Converted(rs0, rs, order, n) && n < |order| && 0 <= order[n] < |rs|
    requires room.kind == Treasure && room.id == rs0[order[n]].id
    ensures Converted(rs0, rs[order[n] := room], order, n + 1)
  {
    assert order[..n + 1] == order[..n] + [order[n]];
  }

  /**
   * The treasure shuffle picks normal rooms, each once: converting a
   * prefix of a shuffle of the normal indices changes exactly the rooms
   * at those indices, each of them a normal room turned into a treasure
   * room, and the prefix names distinct rooms.
   */
  lemma {:induction false} TreasureFromNormal(rs0: seq<Room>, rs: seq<Room>, code: nat, n: int)
    requires Converted(rs0, rs, Shuffled(NormalsOf(rs0), code), n)
    ensures Distinct(Shuffled(NormalsOf(rs0), code)[..n])
    ensures forall k :: 0 <= k < |rs| ==>
              (rs[k] != rs0[k] <==> k in Shuffled(NormalsOf(rs0), code)[..n])
    ensures forall k :: 0 <= k < |rs| && rs[k] != rs0[k] ==> rs0[k].kind == Normal && rs[k].kind == Treasure
  {
    var order := Shuffled(NormalsOf(rs0), code);
    ShuffledDistinct(NormalsOf(rs0), code);
    forall k | 0 <= k < |rs| && k in order[..n]
      ensures rs0[k].kind == Normal
    {
      ShuffledHas(NormalsOf(rs0), code, k);
    }
  }

  /** `order` lists distinct indices of normal rooms of `rs`. */
  predicate NormalOrder(rs: seq<Room>, order: seq<int>)
  {
    Distinct(order) && forall j :: 0 <= j < |order| ==> 0 <= order[j] < |rs| && rs[order[j]].kind == Normal
  }

  /** The treasure order lists distinct indices of normal rooms. */
  lemma OrderNormal(rs0: seq<Room>, code: nat)
    ensures NormalOrder(rs0, Shuffled(NormalsOf(rs0), code))
  {
    var order := Shuffled(NormalsOf(rs0), code);
    assert Distinct(NormalsOf(rs0));
    ShuffledDistinct(NormalsOf(rs0), code);
    forall j | 0 <= j < |order|
      ensures 0 <= order[j] < |rs0| && rs0[order[j]].kind == Normal
    {
      ShuffledHas(NormalsOf(rs0), code, order[j]);
    }
  }

  /**
   * Room `room` holds the encounter the generator gives its type, on a
   * grid of `h` rows and `w` columns with the entrance on (ex, ey): a
   * normal room a fight named after its id whose strength grows with its
   * distance from the entrance, a treasure room a chest of quality
   * `1 + difficulty / 2`, the boss room a fight of strength
   * `difficulty + 3`; the entrance and the exit get nothing.
   */
  predicate Equipped(room: Room, difficulty: int, ex: int, ey: int, h: nat, w: nat)
    reads room
    requires h + w > 0
  {
    match room.kind
    case Normal =>
      room.encounter.CombatRef? &&
      room.encounter.fight.base.name == "Combat Encounter " + IntToString(room.id) &&
      room.encounter.fight.difficulty ==
        Max(1, NormalDifficulty(Manhattan(room.posX, room.posY, ex, ey), difficulty, h, w))
    case Treasure =>
      room.encounter.TreasureRef? &&
      room.encounter.chest.base.name == "Treasure Chest " + IntToString(room.id) &&
      room.encounter.chest.quality == Max(1, TreasureQuality(difficulty))
    case Boss =>
      room.encounter.CombatRef? &&
      room.encounter.fight.base.name == "Boss Encounter " + IntToString(room.id) &&
      room.encounter.fight.difficulty == Max(1, BossDifficulty(difficulty))
    case _ => true
  }

  /** The rooms of `rs` before index `i` hold the encounters their types call for. */
  ghost predicate EquippedBelow(rs: seq<Room>, i: int, difficulty: int, ex: int, ey: int, h: nat, w: nat)
    reads rs
    requires h + w > 0
  {
    forall j :: 0 <= j < i && j < |rs| ==> Equipped(rs[j], difficulty, ex, ey, h, w)
  }

  /** The rooms of `rs` from index `i` on, and the entrance and exit rooms before it, still hold `encs`. */
  ghost predicate KeptFrom(rs: seq<Room>, encs: seq<EncounterRef>, i: int)
    reads rs
  {
    |encs| == |rs| &&
    forall j :: 0 <= j < |rs| && (i <= j || rs[j].kind in {Entrance, Exit}) ==> rs[j].encounter == encs[j]
  }

  /** The encounters the rooms of `rs` hold. */
  function EncountersOf(rs: seq<Room>): (encs: seq<EncounterRef>)
    reads rs
    ensures |encs| == |rs| && forall j :: 0 <= j < |rs| ==> encs[j] == rs[j].encounter
  {
    seq(|rs|, j requires 0 <= j < |rs| reads rs => rs[j].encounter)
  }

  /** A new unlinked room of the given id and type on cell (x, y) with `description`. */
  method NewRoom(id: int, kind: RoomType, x: int, y: int, description: string) returns (room: Room)
    ensures fresh(room) && room.id == id && room.kind == kind && room.posX == x && room.posY == y
    ensures room.description == description && room.connections == [] && room.encounter == NoEncounter
    ensures !room.visited && !room.cleared
  {
    room := new Room(id, kind);
    room.SetPosition(x, y);
    room.SetDescription(description);
  }

  class Generator {
    /** The random stream of the generator's engine. */
    const rng: Rng
    /** The index of the next draw. */
    var cursor: nat
    var rooms: seq<Room>
    var entranceRoom: Room?
    var exitRoom: Room?
    var bossRoom: Room?
    /** `grid[y][x]` is the room placed on cell (x, y), if any. */
    var grid: seq<seq<Room?>>
    /** Every room this generator has created since it was last cleared. */
    ghost var world: set<Room>
    /** `cells[i]` is the cell room `i` stands on. */
    ghost var cells: seq<Cell>

    /** A generator with an empty floor, drawing from `rng`. */
    constructor(rng: Rng)
      ensures this.rng == rng && cursor == 0
      ensures rooms == [] && grid == [] && world == {} && cells == []
      ensures entranceRoom == null && exitRoom == null && bossRoom == null
    {
      this.rng := rng;
      cells := [];
      cursor := 0;
      rooms := [];
      grid := [];
      world := {};
      entranceRoom := null;
      exitRoom := null;
      bossRoom := null;
    }

    function Width(): int
      reads this
      requires Rect(grid)
    {
      |grid[0]|
    }

    function Height(): int
      reads this
    {
      |grid|
    }

    /** The rooms fill the grid consistently, each on the cell its position names. */
    ghost predicate Layout()
      reads this`rooms, this`cells, this`grid, rooms`posX, rooms`posY
    {
      Placed(rooms, cells, grid) &&
      forall i :: 0 <= i < |cells| && i < |rooms| ==> cells[i] == (rooms[i].posX, rooms[i].posY)
    }

    /** Every room of the floor was created here, and created rooms link only created rooms. */
    ghost predicate Linked()
      reads this`rooms, this`world, world`connections
    {
      (forall i :: 0 <= i < |rooms| ==> rooms[i] in world) &&
      (forall r :: r in world ==> 0 <= r.id < |rooms| && forall c :: c in r.connections ==> c in world)
    }

    /** The entrance, exit and boss pointers name rooms of the floor of those types. */
    ghost predicate Specials()
      reads this`rooms, this`entranceRoom, this`exitRoom, this`bossRoom
    {
      SpecialsOn(rooms, entranceRoom, exitRoom, bossRoom)
    }

    /** The grid is rectangular and every room on it was created here. */
    ghost predicate GridInWorld()
      reads this`grid, this`world
    {
      Rect(grid) && forall y, x :: 0 <= y < |grid| && 0 <= x < |grid[y]| && grid[y][x] != null ==> grid[y][x] in world
    }

    /** The floor is consistent. */
    ghost predicate Valid()
      reads this`rooms, this`cells, this`grid, this`world, this`entranceRoom, this`exitRoom, this`bossRoom,
            rooms`posX, rooms`posY, world`connections
    {
      Layout() && Linked() && Specials()
    }

    /** Forgets the floor: no rooms, no special rooms, an empty grid. */
    method Clear()
      modifies this`rooms, this`entranceRoom, this`exitRoom, this`bossRoom, this`grid, this`world, this`cells
      ensures rooms == [] && grid == [] && world == {} && cells == []
      ensures entranceRoom == null && exitRoom == null && bossRoom == null
    {
      cells := [];
      rooms := [];
      entranceRoom := null;
      exitRoom := null;
      bossRoom := null;
      grid := [];
      world := {};
    }

    /** Makes the grid `height` rows of `width` empty cells. */
    method InitializeGrid(width: int, height: int)
      requires width >= 1 && height >= 1
      modifies this`grid
      ensures Rect(grid) && Width() == width && Height() == height
      ensures forall y, x :: 0 <= y < height && 0 <= x < width ==> grid[y][x] == null
    {
      grid := seq(height, _ => seq(width, _ => null));
    }

    /** Puts `room` on cell (x, y) and gives it that position; a cell outside the grid is ignored. */
    method PlaceRoomAt(x: int, y: int, room: Room)
      requires Rect(grid)
      modifies this`grid, room`posX, room`posY
      ensures Rect(grid) && Width() == old(Width()) && Height() == old(Height())
      ensures old(OnGrid(grid, x, y)) ==> grid == old(grid)[y := old(grid)[y][x := room]] && room.posX == x && room.posY == y
      ensures !old(OnGrid(grid, x, y)) ==> grid == old(grid) && room.posX == old(room.posX) && room.posY == old(room.posY)
    {
      if 0 <= x < |grid[0]| && 0 <= y < |grid| {
        grid := grid[y := grid[y][x := room]];
        room.SetPosition(x, y);
      }
    }

    /**
     * A new room of the given id and type at (x, y) with the generator's
     * description for its type; a normal room's description takes one
     * draw.
     */
    method CreateRoom(id: int, kind: RoomType, x: int, y: int) returns (room: Room)
      modifies this`cursor
      ensures fresh(room)
      ensures room.id == id && room.kind == kind && room.posX == x && room.posY == y
      ensures room.connections == [] && room.encounter == NoEncounter && !room.visited && !room.cleared
      ensures cursor == old(cursor) + (if kind == Normal then 1 else 0)
    {
      var description := CreatedDescription(kind, rng(cursor));
      room := NewRoom(id, kind, x, y, description);
      cursor := cursor + (if kind == Normal then 1 else 0);
    }

    /** Links two rooms both ways when both exist. */
    method ConnectRooms(room1: Room?, room2: Room?)
      modifies (if room1 == null then {} else {room1})`connections
      modifies (if room2 == null then {} else {room2})`connections
      ensures room1 != null ==> old(room1.connections) <= room1.connections
      ensures room2 != null ==> old(room2.connections) <= room2.connections
      ensures room1 == null || room2 == null ==>
                (room1 != null ==> room1.connections == old(room1.connections)) &&
                (room2 != null ==> room2.connections == old(room2.connections))
      ensures room1 != null && room2 != null ==>
                room1.IsConnectedTo(room2.id) && (old(room1.IsConnectedTo(room2.id)) || room2.IsConnectedTo(room1.id))
      ensures room1 != null && room2 != null ==>
                (forall c :: c in room1.connections ==> c in old(room1.connections) || c == room2) &&
                (forall c :: c in room2.connections ==> c in old(room2.connections) || c == room1)
      ensures room1 != null && room2 != null && room1 != room2 &&
              !old(room1.IsConnectedTo(room2.id)) && !old(room2.IsConnectedTo(room1.id)) ==>
                room1.connections == old(room1.connections) + [room2] &&
                room2.connections == old(room2.connections) + [room1]
    {
      if room1 != null && room2 != null {
        room1.AddConnection(room2);
      }
    }

    /** Creates a room of type `kind` with the next id on the free cell (x, y) and appends it to the floor. */
    method AddRoom(kind: RoomType, x: int, y: int) returns (room: Room)
      requires Valid() && Free(grid, x, y)
      modifies this`cursor, this`world, this`grid, this`rooms, this`cells
      ensures Appended(room, x, y) && room.kind == kind && room.posX == x && room.posY == y
      ensures room.connections == [] && room.encounter == NoEncounter
      ensures cursor == old(cursor) + (if kind == Normal then 1 else 0)
      ensures Valid()
    {
      room := CreateRoom(|rooms|, kind, x, y);
      Attach(room, x, y);
    }

    /** Places the new room `room`, which has the next id, on the free cell (x, y) and appends it to the floor. */
    method Attach(room: Room, x: int, y: int)
      requires Valid() && Free(grid, x, y) && room.id == |rooms| && room !in world && room.connections == []
      modifies this`grid, this`rooms, this`cells, this`world, room`posX, room`posY
      ensures rooms == old(rooms) + [room] && cells == old(cells) + [(x, y)] && world == old(world) + {room}
      ensures grid == old(grid)[y := old(grid)[y][x := room]] && room.posX == x && room.posY == y
      ensures Valid()
    {
      ghost var rs, ps, g := rooms, cells, grid;
      SpecialsSnoc(rs, entranceRoom, exitRoom, bossRoom, room);
      PlacedSnoc(rs, ps, g, room, x, y, rs + [room], ps + [(x, y)], g[y := g[y][x := room]]);
      PlaceRoomAt(x, y, room);
      rooms, cells, world := rooms + [room], cells + [(x, y)], world + {room};
      assert Layout();
      forall r | r in world
        ensures 0 <= r.id < |rooms| && forall c :: c in r.connections ==> c in world
      {
      }
      assert Linked();
    }

    /**
     * Builds the walk's room on the free cell (x, y), next to the room
     * `top`, links the two, and records an exit or boss room.
     */
    method Build(p: Params, top: Room, x: int, y: int) returns (room: Room)
      requires Valid() && Free(grid, x, y) && top in rooms
      modifies this`cursor, this`world, this`grid, this`rooms, this`cells, this`exitRoom, this`bossRoom, top`connections
      ensures Appended(room, x, y) && room.kind == WalkKind(p, x, y) && room.posX == x && room.posY == y
      ensures room.connections == [top] && top.connections == old(top.connections) + [room]
      ensures cursor == old(cursor) + (if room.kind == Normal then 1 else 0)
      ensures exitRoom == if room.kind == Exit then room else old(exitRoom)
      ensures bossRoom == if room.kind == Boss then room else old(bossRoom)
      ensures Valid()
    {
      var kind := WalkKind(p, x, y);
      NotLinkedToNewId(top);
      room := AddRoom(kind, x, y);
      ghost var layout := Layout();
      Link(top, room);
      assert layout && Layout() == layout;
      if kind == Exit {
        exitRoom := room;
      } else if kind == Boss {
        bossRoom := room;
      }
    }

    /** Shuffles the four directions with one draw. */
    method DrawOrder() returns (order: seq<Dir>)
      modifies this`cursor
      ensures order == Shuffled(Directions, rng(old(cursor))) && cursor == old(cursor) + 1
    {
      order := Shuffled(Directions, rng(cursor));
      cursor := cursor + 1;
    }

    /** Scans `order` for the first direction that leads from (x, y) to a free cell. */
    method FirstFreeDirection(order: seq<Dir>, x: int, y: int) returns (i: nat)
      requires Rect(grid)
      ensures i == FirstFree(grid, order, x, y)
    {
      i := 0;
      while i < |order|
        invariant 0 <= i <= |order| && i <= FirstFree(grid, order, x, y)
      {
        var cx, cy := x + Dx(order[i]), y + Dy(order[i]);
        if 0 <= cx < Width() && 0 <= cy < Height() && grid[cy][cx] == null {
          break;
        }
        i := i + 1;
      }
    }

    /**
     * `room` is new, was appended to the floor with the next id and stands
     * on the free cell (x, y) of the grid.
     */
    twostate predicate Appended(new room: Room, x: int, y: int)
      reads this, room
    {
      fresh(room) && rooms == old(rooms) + [room] && cells == old(cells) + [(x, y)] && world == old(world) + {room} &&
      0 <= y < |old(grid)| && 0 <= x < |old(grid)[y]| && grid == old(grid)[y := old(grid)[y][x := room]] &&
      room.id == old(|rooms|)
    }

    /**
     * One step of the walk from the occupied cell (x, y) on top of the
     * path: draws an order of the four directions and builds a room on the
     * first cell in that order that is free, linked to the room on (x, y).
     * When no direction leads to a free cell nothing is built, and (x, y)
     * is boxed in.
     */
    method Step(p: Params, x: int, y: int) returns (placed: bool, nx: int, ny: int, room: Room?)
      requires Valid() && Occupied(grid, x, y)
      modifies this`cursor, this`world, this`grid, this`rooms, this`cells, this`exitRoom, this`bossRoom
      modifies (if grid[y][x] == null then {} else {grid[y][x]})`connections
      ensures Valid()
      ensures var order := Shuffled(Directions, rng(old(cursor)));
              var k := FirstFree(old(grid), order, x, y);
              (placed <==> k < |order|) && (placed ==> nx == x + Dx(order[k]) && ny == y + Dy(order[k]))
      ensures !placed ==>
                BoxedIn(grid, x, y) && room == null && cursor == old(cursor) + 1 &&
                rooms == old(rooms) && cells == old(cells) && grid == old(grid) && world == old(world) &&
                exitRoom == old(exitRoom) && bossRoom == old(bossRoom) &&
                old(grid[y][x]).connections == old(grid[y][x].connections)
      ensures placed ==>
                room != null && Free(old(grid), nx, ny) && Appended(room, nx, ny) && room.kind == WalkKind(p, nx, ny) &&
                room.connections == [old(grid[y][x])] &&
                old(grid[y][x]).connections == old(grid[y][x].connections) + [room] &&
                cursor == old(cursor) + 1 + (if room.kind == Normal then 1 else 0) &&
                exitRoom == (if room.kind == Exit then room else old(exitRoom)) &&
                bossRoom == (if room.kind == Boss then room else old(bossRoom))
    {
      ghost var valid := Valid();
      var order := DrawOrder();
      assert Valid() == valid;
      var i := FirstFreeDirection(order, x, y);
      placed := i < |order|;
      nx, ny := x, y;
      room := null;
      if placed {
        nx, ny := x + Dx(order[i]), y + Dy(order[i]);
        var top := grid[y][x];
        RoomOnCell(x, y);
        assert top == old(grid[y][x]) && Free(old(grid), nx, ny);
        room := Build(p, top, nx, ny);
      } else {
        NoneFreeBoxedIn(grid, rng(old(cursor)), x, y);
      }
    }

    /** What the walk keeps along its path, on the current rooms, cells and grid. */
    ghost predicate Walked(p: Params, path: seq<Cell>)
      reads this`rooms, this`cells, this`grid
    {
      WalkedOn(p, rooms, cells, grid, path)
    }

    /**
     * One turn of the walk: step from the cell on top of the path and
     * push the new room's cell, or pop the top when it is boxed in.
     */
    method Advance(p: Params, path: seq<Cell>) returns (next: seq<Cell>)
      requires Valid() && Walked(p, path) && path != []
      modifies this`cursor, this`world, this`grid, this`rooms, this`cells, this`exitRoom, this`bossRoom
      modifies rooms`connections
      ensures Valid() && Walked(p, next)
      ensures old(rooms) <= rooms && old(cells) <= cells
      ensures forall i :: old(|rooms|) <= i < |rooms| ==> fresh(rooms[i])
      ensures (|rooms| == old(|rooms|) + 1 && |next| == |path| + 1) || (rooms == old(rooms) && |next| == |path| - 1)
      ensures fresh(world - old(world))
    {
      var top := path[|path| - 1];
      ghost var rs, ps, g := rooms, cells, grid;
      RoomOnCell(top.0, top.1);
      var placed, nx, ny, room := Step(p, top.0, top.1);
      if placed {
        next := path + [(nx, ny)];
        WalkedPush(p, rs, ps, g, path, room, nx, ny, rooms, cells, grid);
      } else {
        next := path[..|path| - 1];
        WalkedPop(p, rooms, cells, grid, path);
      }
    }

    /**
     * The random walk from the entrance: advance while fewer than
     * `target` rooms stand and the path is not empty. Every room after
     * the entrance is new and has the type its cell calls for; the walk
     * stops short of the target only when every room is boxed in.
     */
    method Walk(p: Params, target: int)
      requires Valid() && |rooms| == 1 && target >= 1
      modifies this`cursor, this`world, this`grid, this`rooms, this`cells, this`exitRoom, this`bossRoom
      modifies rooms`connections
      ensures Valid() && 1 <= |rooms| <= target && rooms[0] == old(rooms[0]) && cells[0] == old(cells[0])
      ensures forall i :: 1 <= i < |rooms| ==> rooms[i].kind == WalkKind(p, cells[i].0, cells[i].1)
      ensures forall i :: 1 <= i < |rooms| ==> fresh(rooms[i])
      ensures |rooms| < target ==> forall i :: 0 <= i < |cells| ==> BoxedIn(grid, cells[i].0, cells[i].1)
      ensures fresh(world - old(world))
    {
      var path: seq<Cell> := [(rooms[0].posX, rooms[0].posY)];
      RoomOnCell(path[0].0, path[0].1);
      while |rooms| < target && path != []
        invariant Valid() && Walked(p, path) && |rooms| <= target
        invariant old(rooms) <= rooms && old(cells) <= cells
        invariant forall i :: 1 <= i < |rooms| ==> fresh(rooms[i])
        invariant fresh(world - old(world))
        decreases 2 * (target - |rooms|) + |path|
      {
        path := Advance(p, path);
      }
    }

    /**
     * Replaces the normal room at index `index` by a new room of type
     * `kind` with the same id on the same cell, in the floor and on the
     * grid. The new room has no links: rooms linked to the old room keep
     * linking the old one.
     */
    method Recreate(index: int, kind: RoomType) returns (room: Room)
      requires Valid() && 0 <= index < |rooms| && rooms[index].kind == Normal && kind in {Exit, Boss, Treasure}
      modifies this`cursor, this`world, this`grid, this`rooms
      ensures fresh(room) && rooms == old(rooms)[index := room] && world == old(world) + {room}
      ensures grid == old(grid)[cells[index].1 := old(grid)[cells[index].1][cells[index].0 := room]]
      ensures room.id == index && room.kind == kind && (room.posX, room.posY) == cells[index]
      ensures room.connections == [] && room.encounter == NoEncounter
      ensures cursor == old(cursor) && Valid()
    {
      var previous := rooms[index];
      room := CreateRoom(previous.id, kind, previous.posX, previous.posY);
      Replace(index, room);
    }

    /** Puts the new room `room`, with id `index`, in place of the normal room at `index`, on the floor and on the grid. */
    method Replace(index: int, room: Room)
      requires Valid() && 0 <= index < |rooms| && rooms[index].kind == Normal
      requires room.id == index && room !in world && room.connections == []
      modifies this`grid, this`rooms, this`world, room`posX, room`posY
      ensures rooms == old(rooms)[index := room] && world == old(world) + {room}
      ensures grid == old(grid)[cells[index].1 := old(grid)[cells[index].1][cells[index].0 := room]]
      ensures (room.posX, room.posY) == cells[index] && Valid()
    {
      ghost var rs, g := rooms, grid;
      var previous := rooms[index];
      SpecialsReplace(rs, entranceRoom, exitRoom, bossRoom, index, room);
      PlaceRoomAt(previous.posX, previous.posY, room);
      rooms, world := rooms[index := room], world + {room};
      PlacedReplace(rs, cells, g, index, room, rooms, grid);
      assert Layout();
      forall r | r in world
        ensures 0 <= r.id < |rooms| && forall c :: c in r.connections ==> c in world
      {
      }
      assert Linked();
    }

    /** `Recreate`, making a new exit or boss room the floor's exit or boss. */
    method Convert(index: int, kind: RoomType) returns (room: Room)
      requires Valid() && 0 <= index < |rooms| && rooms[index].kind == Normal && kind in {Exit, Boss, Treasure}
      modifies this`cursor, this`world, this`grid, this`rooms, this`exitRoom, this`bossRoom
      ensures fresh(room) && rooms == old(rooms)[index := room] && world == old(world) + {room}
      ensures grid == old(grid)[cells[index].1 := old(grid)[cells[index].1][cells[index].0 := room]]
      ensures room.id == index && room.kind == kind && (room.posX, room.posY) == cells[index]
      ensures room.connections == [] && room.encounter == NoEncounter
      ensures exitRoom == if kind == Exit then room else old(exitRoom)
      ensures bossRoom == if kind == Boss then room else old(bossRoom)
      ensures cursor == old(cursor) && Valid()
    {
      room := Recreate(index, kind);
      ghost var layout, linked := Layout(), Linked();
      if kind == Exit {
        exitRoom := room;
      } else if kind == Boss {
        bossRoom := room;
      }
      assert Layout() == layout && Linked() == linked;
    }

    /**
     * The scan for the exit: the normal room farthest from (ex, ey), the
     * first in row-major order among equally far ones, or null when every
     * normal room stands on (ex, ey).
     */
    method FarthestNormal(ex: int, ey: int) returns (far: Room?, fx: int, fy: int)
      requires Rect(grid)
      ensures far != null ==> Farthest(grid, ex, ey, fx, fy) && far == grid[fy][fx]
      ensures far == null ==> forall y, x :: NormalAt(grid, x, y) ==> Manhattan(x, y, ex, ey) == 0
    {
      var best := 0;
      far, fx, fy := null, -1, -1;
      var y := 0;
      while y < |grid|
        invariant 0 <= y <= |grid|
        invariant Scanned(grid, ex, ey, 0, y, fx, fy, best)
        invariant best > 0 ==> far == grid[fy][fx]
        invariant best == 0 ==> far == null
      {
        var x := 0;
        while x < |grid[0]|
          invariant 0 <= x <= |grid[0]|
          invariant Scanned(grid, ex, ey, x, y, fx, fy, best)
          invariant best > 0 ==> far == grid[fy][fx]
          invariant best == 0 ==> far == null
        {
          if grid[y][x] != null {
            var distance := Abs(x - ex) + Abs(y - ey);
            if distance > best && grid[y][x].kind == Normal {
              best := distance;
              far := grid[y][x];
              fx, fy := x, y;
            }
          }
          x := x + 1;
        }
        ScannedRow(grid, ex, ey, y, fx, fy, best);
        y := y + 1;
      }
      assert forall yy, xx :: NormalAt(grid, xx, yy) ==> Before(xx, yy, 0, |grid|);
    }

    /**
     * When the walk placed no exit, converts the normal room farthest from
     * (ex, ey) into the exit; with no normal room away from (ex, ey) the
     * floor stays without an exit.
     */
    method ExitFallback(ex: int, ey: int)
      requires Valid()
      modifies this`cursor, this`world, this`grid, this`rooms, this`exitRoom, this`bossRoom
      ensures Valid() && cursor == old(cursor) && bossRoom == old(bossRoom) && fresh(world - old(world))
      ensures old(exitRoom) != null ==> exitRoom == old(exitRoom) && rooms == old(rooms) && grid == old(grid)
      ensures old(exitRoom) == null && exitRoom == null ==>
                rooms == old(rooms) && grid == old(grid) &&
                forall y, x :: NormalAt(grid, x, y) ==> Manhattan(x, y, ex, ey) == 0
      ensures old(exitRoom) == null && exitRoom != null ==>
                fresh(exitRoom) && Farthest(old(grid), ex, ey, exitRoom.posX, exitRoom.posY) &&
                exitRoom.id == old(grid)[exitRoom.posY][exitRoom.posX].id &&
                rooms == old(rooms)[exitRoom.id := exitRoom] &&
                grid == old(grid)[exitRoom.posY := old(grid)[exitRoom.posY][exitRoom.posX := exitRoom]] &&
                exitRoom.connections == []
    {
      if exitRoom == null {
        var far, fx, fy := FarthestNormal(ex, ey);
        if far != null {
          RoomOnCell(fx, fy);
          var i := IndexOfId(far.id);
          var room := Convert(i, Exit);
        }
      }
    }

    /**
     * When the floor should have a boss room but the walk placed none,
     * converts a normal room next to the exit into the boss room.
     */
    method BossFallback(hasBossRoom: bool)
      requires Valid()
      modifies this`cursor, this`world, this`grid, this`rooms, this`exitRoom, this`bossRoom
      ensures Valid() && cursor == old(cursor) && exitRoom == old(exitRoom) && fresh(world - old(world))
      ensures !hasBossRoom || old(bossRoom) != null || old(exitRoom) == null ==>
                bossRoom == old(bossRoom) && rooms == old(rooms) && grid == old(grid)
      ensures hasBossRoom && old(bossRoom) == null && old(exitRoom) != null && bossRoom == null ==>
                rooms == old(rooms) && grid == old(grid) &&
                forall d: Dir :: !NormalAt(grid, exitRoom.posX + Dx(d), exitRoom.posY + Dy(d))
      ensures bossRoom != old(bossRoom) ==>
                fresh(bossRoom) && bossRoom.kind == Boss && bossRoom.connections == [] &&
                NormalAt(old(grid), bossRoom.posX, bossRoom.posY) &&
                Manhattan(bossRoom.posX, bossRoom.posY, exitRoom.posX, exitRoom.posY) == 1
    {
      if hasBossRoom && bossRoom == null && exitRoom != null {
        RoomOnCell(exitRoom.posX, exitRoom.posY);
        var i := BossNextTo(exitRoom.posX, exitRoom.posY);
      }
    }

    /**
     * Converts the first normal room next to (x, y), in the order right,
     * down, left, up, into the boss room; `i` is the position of its
     * direction in that order, or 4 when there is none and nothing changes.
     */
    method BossNextTo(x: int, y: int) returns (i: nat)
      requires Valid() && Occupied(grid, x, y)
      modifies this`cursor, this`world, this`grid, this`rooms, this`exitRoom, this`bossRoom
      ensures Valid() && cursor == old(cursor) && exitRoom == old(exitRoom) && fresh(world - old(world))
      ensures i <= |Directions|
      ensures forall j :: 0 <= j < i ==> !NormalAt(old(grid), x + Dx(Directions[j]), y + Dy(Directions[j]))
      ensures i == |Directions| ==>
                bossRoom == old(bossRoom) && rooms == old(rooms) && grid == old(grid) &&
                forall d: Dir :: !NormalAt(grid, x + Dx(d), y + Dy(d))
      ensures i < |Directions| ==>
                var cx, cy := x + Dx(Directions[i]), y + Dy(Directions[i]);
                NormalAt(old(grid), cx, cy) && Manhattan(cx, cy, x, y) == 1 &&
                fresh(bossRoom) && bossRoom.kind == Boss && bossRoom.connections == [] &&
                bossRoom.posX == cx && bossRoom.posY == cy && bossRoom.id == old(grid)[cy][cx].id &&
                rooms == old(rooms)[bossRoom.id := bossRoom] && grid == old(grid)[cy := old(grid)[cy][cx := bossRoom]]
    {
      i := FirstNormalNeighbour(x, y);
      if i < |Directions| {
        var adjX, adjY := x + Dx(Directions[i]), y + Dy(Directions[i]);
        RoomOnCell(adjX, adjY);
        var index := IndexOfId(grid[adjY][adjX].id);
        var room := Convert(index, Boss);
      } else {
        NoNormalBeside(grid, x, y);
      }
    }

    /** The first of the directions right, down, left, up that leads from (x, y) to a normal room, or 4. */
    method FirstNormalNeighbour(x: int, y: int) returns (i: nat)
      requires Rect(grid)
      ensures i <= |Directions|
      ensures i < |Directions| ==> NormalAt(grid, x + Dx(Directions[i]), y + Dy(Directions[i]))
      ensures forall j :: 0 <= j < i ==> !NormalAt(grid, x + Dx(Directions[j]), y + Dy(Directions[j]))
    {
      i := 0;
      while i < |Directions|
        invariant i <= |Directions|
        invariant forall j :: 0 <= j < i ==> !NormalAt(grid, x + Dx(Directions[j]), y + Dy(Directions[j]))
      {
        var adjX, adjY := x + Dx(Directions[i]), y + Dy(Directions[i]);
        if 0 <= adjX < |grid[0]| && 0 <= adjY < |grid| {
          if grid[adjY][adjX] != null && grid[adjY][adjX].kind == Normal {
            return;
          }
        }
        i := i + 1;
      }
    }

    /**
     * `ConnectRooms` on two created rooms, keeping every link among
     * created rooms.
     */
    method Join(room1: Room, room2: Room)
      requires Linked() && room1 in world && room2 in world
      modifies room1`connections, room2`connections
      ensures old(room1.connections) <= room1.connections && old(room2.connections) <= room2.connections
      ensures room1.IsConnectedTo(room2.id) && (old(room1.IsConnectedTo(room2.id)) || room2.IsConnectedTo(room1.id))
      ensures forall c :: c in room1.connections ==> c in old(room1.connections) || c == room2
      ensures forall c :: c in room2.connections ==> c in old(room2.connections) || c == room1
      ensures Linked()
    {
      ConnectRooms(room1, room2);
      forall r | r in world
        ensures 0 <= r.id < |rooms| && forall c :: c in r.connections ==> c in world
      {
        if r != room1 && r != room2 {
          assert r.connections == old(r.connections);
        }
      }
    }

    /**
     * Links the room on (x, y) to each room on a neighbouring cell, in the
     * order right, down, left, up, that it does not yet link by id.
     * Reports whether it made a link: it does exactly when some
     * neighbouring room was not linked before. Outside the grid or on an
     * empty cell nothing happens.
     */
    method TryConnectAdjacentRooms(x: int, y: int) returns (made: bool)
      requires GridInWorld() && Linked()
      modifies world`connections
      ensures Linked()
      ensures Occupied(grid, x, y) ==> old(grid[y][x].connections) <= grid[y][x].connections
      ensures !Occupied(grid, x, y) ==> !made && forall r :: r in world ==> r.connections == old(r.connections)
      ensures Occupied(grid, x, y) ==>
                (made <==> exists d: Dir :: Neighbour(grid, x, y, d) != null &&
                                             Neighbour(grid, x, y, d).id !in IdsOf(old(grid[y][x].connections)))
      ensures Occupied(grid, x, y) ==>
                forall d: Dir :: Neighbour(grid, x, y, d) != null ==> Neighbour(grid, x, y, d).id in IdsOf(grid[y][x].connections)
    {
      made := false;
      if x < 0 || y < 0 || x >= |grid[0]| || y >= |grid| {
        return;
      }
      if grid[y][x] == null {
        return;
      }
      var room := grid[y][x];
      ghost var initial := room.connections;
      var i := 0;
      while i < |Directions|
        invariant 0 <= i <= |Directions| && GridInWorld() && Linked()
        invariant initial <= room.connections
        invariant !made ==> room.connections == initial
        invariant made ==> exists j :: 0 <= j < i && Neighbour(grid, x, y, Directions[j]) != null &&
                                       Neighbour(grid, x, y, Directions[j]).id !in IdsOf(initial)
        invariant LinksFirst(grid, x, y, i, room.connections)
      {
        ghost var before := room.connections;
        var joined := ConnectToward(x, y, Directions[i]);
        LinksFirstStep(grid, x, y, i, before, room.connections);
        if joined {
          made := true;
        }
        i := i + 1;
      }
      forall d: Dir | Neighbour(grid, x, y, d) != null
        ensures Neighbour(grid, x, y, d).id in IdsOf(room.connections)
        ensures !made ==> Neighbour(grid, x, y, d).id in IdsOf(initial)
      {
        assert Directions[DirIndex(d)] == d;
      }
      if made {
        ghost var j :| 0 <= j < |Directions| && Neighbour(grid, x, y, Directions[j]) != null &&
                 Neighbour(grid, x, y, Directions[j]).id !in IdsOf(initial);
        assert Neighbour(grid, x, y, Directions[j]) != null;
      }
    }

    /**
     * One direction of `TryConnectAdjacentRooms`: links the room on the
     * occupied cell (x, y) to the room on the neighbouring cell in
     * direction `d`, when there is one and it is not yet linked by id.
     */
    method ConnectToward(x: int, y: int, d: Dir) returns (joined: bool)
      requires GridInWorld() && Linked() && Occupied(grid, x, y)
      modifies world`connections
      ensures Linked()
      ensures old(grid[y][x].connections) <= grid[y][x].connections
      ensures joined <==> Neighbour(grid, x, y, d) != null && Neighbour(grid, x, y, d).id !in IdsOf(old(grid[y][x].connections))
      ensures !joined ==> grid[y][x].connections == old(grid[y][x].connections)
      ensures Neighbour(grid, x, y, d) != null ==> Neighbour(grid, x, y, d).id in IdsOf(grid[y][x].connections)
    {
      joined := false;
      ghost var other := Neighbour(grid, x, y, d);
      var adjX, adjY := x + Dx(d), y + Dy(d);
      if 0 <= adjX < |grid[0]| && 0 <= adjY < |grid| && grid[adjY][adjX] != null {
        assert other == grid[adjY][adjX];
        if !grid[y][x].IsConnectedTo(grid[adjY][adjX].id) {
          Join(grid[y][x], grid[adjY][adjX]);
          joined := true;
        }
      } else {
        assert other == null;
      }
    }

    /**
     * Closes loops: unless `loopChance` is not positive, visits the cells
     * row by row and, for every room, takes one draw and links the room to
     * its neighbours when the draw falls below `loopChance`. Takes exactly
     * one draw per room on the grid.
     */
    method CreateRandomLoops(loopChance: real)
      requires Valid()
      modifies this`cursor, world`connections
      ensures Valid()
      ensures cursor == old(cursor) + (if loopChance <= 0.0 then 0 else GridCount(grid))
      ensures loopChance <= 0.0 ==> forall r :: r in world ==> r.connections == old(r.connections)
    {
      if loopChance <= 0.0 {
        return;
      }
      GridRoomsInWorld();
      var height := |grid|;
      var y := 0;
      while y < height
        invariant 0 <= y <= height && Valid() && GridInWorld()
        invariant cursor == old(cursor) + GridCount(grid[..y])
      {
        ghost var layout, specials := Layout(), Specials();
        LoopRow(y, loopChance);
        assert Layout() == layout && Specials() == specials;
        assert grid[..y + 1] == grid[..y] + [grid[y]];
        y := y + 1;
      }
      assert grid[..height] == grid;
    }

    /** One row of `CreateRandomLoops`: one draw per room in row `y`. */
    method LoopRow(y: int, loopChance: real)
      requires GridInWorld() && Linked() && 0 <= y < |grid|
      modifies this`cursor, world`connections
      ensures Linked() && cursor == old(cursor) + RowCount(grid[y])
    {
      var width := |grid[0]|;
      var x := 0;
      while x < width
        invariant 0 <= x <= width && GridInWorld() && Linked()
        invariant cursor == old(cursor) + RowCount(grid[y][..x])
      {
        RowCountSnoc(grid[y], x);
        if grid[y][x] != null {
          var draw := Unit(rng(cursor));
          cursor := cursor + 1;
          if draw < loopChance {
            var made := TryConnectAdjacentRooms(x, y);
          }
        }
        x := x + 1;
      }
      assert grid[y][..width] == grid[y];
    }

    /** The indices of the normal rooms of the floor, in order. */
    method NormalRoomIndices() returns (normals: seq<int>)
      ensures normals == NormalsOf(rooms)
    {
      normals := [];
      var i := 0;
      while i < |rooms|
        invariant 0 <= i <= |rooms| && normals == NormalsOf(rooms[..i])
      {
        assert rooms[..i + 1][..i] == rooms[..i];
        if rooms[i].kind == Normal {
          normals := normals + [i];
        }
        i := i + 1;
      }
      assert rooms[..|rooms|] == rooms;
    }

    /**
     * The treasure step: one shuffle draw puts the normal rooms in an
     * order, and the first `min(numTreasureRooms, rooms - 3)` of them, or
     * all when there are fewer, are recreated as treasure rooms with the
     * same id on the same cell. Returns the order and how many were
     * converted; the other rooms, the links and the exit and boss stay.
     */
    method PlaceTreasure(numTreasureRooms: int) returns (order: seq<int>, n: int)
      requires Valid() && |rooms| < 0x8000_0000
      modifies this`cursor, this`world, this`grid, this`rooms
      ensures order == Shuffled(NormalsOf(old(rooms)), rng(old(cursor)))
      ensures n == Max(0, Min(TreasureTarget(numTreasureRooms, old(|rooms|)), |order|))
      ensures Converted(old(rooms), rooms, order, n)
      ensures Renewed(old(rooms), rooms, old(world))
      ensures cursor == old(cursor) + 1 && Valid() && fresh(world - old(world))
    {
      var count := TreasureTarget(numTreasureRooms, |rooms|);
      order := DrawNormalOrder();
      n := ConvertFirst(order, count);
    }

    /** The indices of the normal rooms in the order one draw shuffles them into. */
    method DrawNormalOrder() returns (order: seq<int>)
      requires Valid()
      modifies this`cursor
      ensures order == Shuffled(NormalsOf(rooms), rng(old(cursor))) && NormalOrder(rooms, order)
      ensures cursor == old(cursor) + 1 && Valid()
    {
      var normals := NormalRoomIndices();
      order := Shuffled(normals, rng(cursor));
      OrderNormal(rooms, rng(cursor));
      ghost var valid := Valid();
      cursor := cursor + 1;
      assert Valid() == valid;
    }

    /**
     * Recreates as treasure rooms the rooms at the first `count` indices
     * of `order`, or at all of them when there are fewer; returns how
     * many it converted.
     */
    method ConvertFirst(order: seq<int>, count: int) returns (n: int)
      requires Valid() && NormalOrder(rooms, order)
      modifies this`cursor, this`world, this`grid, this`rooms
      ensures n == Max(0, Min(count, |order|)) && Converted(old(rooms), rooms, order, n)
      ensures Renewed(old(rooms), rooms, old(world))
      ensures cursor == old(cursor) && Valid() && fresh(world - old(world))
    {
      n := 0;
      while n < count && n < |order|
        invariant 0 <= n <= |order| && (n == 0 || n <= count)
        invariant Valid() && Converted(old(rooms), rooms, order, n) && cursor == old(cursor)
        invariant Renewed(old(rooms), rooms, old(world)) && fresh(world - old(world))
      {
        assert order[n] !in order[..n];
        ghost var before := rooms;
        var room := Recreate(order[n], Treasure);
        ConvertedStep(old(rooms), before, order, n, room);
        forall k | 0 <= k < |rooms| && k != order[n] && rooms[k] != old(rooms[k])
          ensures rooms[k] !in old(world) && rooms[k].connections == [] && rooms[k].encounter == NoEncounter
        {
          assert rooms[k] == before[k];
        }
        assert Renewed(old(rooms), rooms, old(world));
        n := n + 1;
      }
    }

    /**
     * Gives every room of the floor the encounter its type calls for,
     * measuring a normal room's distance from the entrance; the entrance
     * and the exit keep what they hold. The entrance is only consulted
     * when there is a normal room.
     */
    method AssignEncounters(difficulty: int)
      requires Valid()
      requires entranceRoom == null ==> forall i :: 0 <= i < |rooms| ==> rooms[i].kind != Normal
      modifies rooms`encounter
      ensures Valid()
      ensures var ex := if entranceRoom == null then 0 else entranceRoom.posX;
              var ey := if entranceRoom == null then 0 else entranceRoom.posY;
              forall i :: 0 <= i < |rooms| ==> Equipped(rooms[i], difficulty, ex, ey, |grid|, |grid[0]|)
      ensures forall i :: 0 <= i < |rooms| && rooms[i].kind in {Entrance, Exit} ==>
                rooms[i].encounter == old(rooms[i].encounter)
    {
      var ex, ey := 0, 0;
      if entranceRoom != null {
        ex, ey := entranceRoom.posX, entranceRoom.posY;
      }
      ghost var valid := Valid();
      ghost var encs := EncountersOf(rooms);
      var rs, h, w := rooms, |grid|, |grid[0]|;
      assert forall j :: 0 <= j < |rs| ==> rs[j].id == j;
      var i := 0;
      while i < |rs|
        invariant 0 <= i <= |rs| && rooms == rs && Rect(grid) && |grid| == h && |grid[0]| == w
        invariant EquippedBelow(rs, i, difficulty, ex, ey, h, w)
        invariant KeptFrom(rs, encs, i)
      {
        label before:
        Equip(rs[i], difficulty, ex, ey);
        forall j | 0 <= j <= i
          ensures Equipped(rs[j], difficulty, ex, ey, h, w)
        {
          if j < i {
            assert rs[j].id != rs[i].id;
            assert old@before(Equipped(rs[j], difficulty, ex, ey, h, w));
          }
        }
        assert EquippedBelow(rs, i + 1, difficulty, ex, ey, h, w);
        i := i + 1;
      }
      assert Valid() == valid;
    }

    /** Gives `room` the encounter its type calls for, with the entrance on (ex, ey). */
    method Equip(room: Room, difficulty: int, ex: int, ey: int)
      requires Rect(grid)
      modifies room`encounter
      ensures Equipped(room, difficulty, ex, ey, |grid|, |grid[0]|)
      ensures room.kind in {Entrance, Exit} ==> room.encounter == old(room.encounter)
      ensures room.kind in {Normal, Boss} ==> room.encounter.CombatRef? && fresh(room.encounter.fight)
      ensures room.kind == Treasure ==> room.encounter.TreasureRef? && fresh(room.encounter.chest)
    {
      match room.kind
      case Normal =>
        var dist := Abs(room.posX - ex) + Abs(room.posY - ey);
        var strength := NormalDifficulty(dist, difficulty, |grid|, |grid[0]|);
        var fight := new CombatEncounter("Combat Encounter " + IntToString(room.id), strength);
        room.SetEncounter(CombatRef(fight));
      case Treasure =>
        var chest := new TreasureEncounter("Treasure Chest " + IntToString(room.id), TreasureQuality(difficulty));
        room.SetEncounter(TreasureRef(chest));
      case Boss =>
        var fight := new CombatEncounter("Boss Encounter " + IntToString(room.id), BossDifficulty(difficulty));
        room.SetEncounter(CombatRef(fight));
      case _ =>
    }

    /**
     * The breadth-first search from the entrance over links, marking
     * room ids. Every marked id is reached from the entrance along links,
     * by a path whose last room was expanded; every expanded room has a
     * marked id and marked neighbours. A room whose id was already marked
     * through another room with the same id is not expanded.
     */
    method Reachable() returns (visited: set<int>, ghost done: set<Room>, ghost paths: map<int, seq<Room>>)
      requires Linked() && entranceRoom != null && entranceRoom in world
      ensures entranceRoom.id in visited && entranceRoom in done && done <= world
      ensures forall v :: v in visited ==>
                (v in paths && Within(paths[v], world) && ReachPath(paths[v], entranceRoom, v) && EndOf(paths, v) in done)
      ensures forall r :: r in done ==> r.id in visited && forall c :: c in r.connections ==> c.id in visited
    {
      var start: Room := entranceRoom;
      visited := {start.id};
      var queue: seq<Room> := [start];
      done := {};
      paths := map[start.id := [start]];
      while queue != []
        invariant start in done || start in queue
        invariant Queued(queue, visited, paths, world) && Expanded(done, visited, world)
        invariant Traced(visited, paths, start, |rooms|, done, queue, null, world)
        decreases |rooms| - |visited|, |queue|
      {
        CardBelow(visited, |rooms|);
        var current := queue[0];
        queue := queue[1..];
        ghost var v0, q1 := visited, queue;
        visited, queue, paths := Expand(current, visited, queue, paths, done, start);
        ExpandedAdd(done, visited, world, current);
        assert start == current || start in done || start in q1;
        done := done + {current};
        CardBelow(visited, |rooms|);
        assert |queue| == |q1| ==> |visited| == |v0|;
      }
    }

    /**
     * One step of the search: marks the id of each neighbour of
     * `current`, in link order, that is not yet marked, and queues that
     * neighbour.
     */
    method Expand(current: Room, visited: set<int>, queue: seq<Room>, ghost paths: map<int, seq<Room>>,
                  ghost done: set<Room>, ghost start: Room)
      returns (visited': set<int>, queue': seq<Room>, ghost paths': map<int, seq<Room>>)
      requires Linked() && current in world && current.id in visited && EndOf(paths, current.id) == current
      requires Queued(queue, visited, paths, world) && Expanded(done, visited, world)
      requires Traced(visited, paths, start, |rooms|, done, queue, current, world)
      ensures visited <= visited' && queue <= queue' && |visited'| - |visited| == |queue'| - |queue|
      ensures forall c :: c in current.connections ==> c.id in visited'
      ensures Queued(queue', visited', paths', world) && Expanded(done, visited', world)
      ensures Traced(visited', paths', start, |rooms|, done, queue', current, world)
    {
      visited', queue', paths' := visited, queue, paths;
      var links := current.connections;
      var k := 0;
      while k < |links|
        invariant 0 <= k <= |links| && visited <= visited' && queue <= queue'
        invariant |visited'| - |visited| == |queue'| - |queue|
        invariant current.id in visited' && EndOf(paths', current.id) == current
        invariant forall c :: c in links[..k] ==> c.id in visited'
        invariant Queued(queue', visited', paths', world) && Expanded(done, visited', world)
        invariant Traced(visited', paths', start, |rooms|, done, queue', current, world)
      {
        var next := links[k];
        assert links[..k + 1] == links[..k] + [next];
        if next.id !in visited' {
          TracedPush(visited', paths', start, |rooms|, done, queue', current, next, world);
          QueuedPush(queue', visited', paths', world, next, paths'[current.id] + [next]);
          ExpandedGrow(done, visited', visited' + {next.id}, world);
          assert |visited' + {next.id}| == |visited'| + 1;
          visited' := visited' + {next.id};
          queue' := queue' + [next];
          paths' := paths'[next.id := paths'[current.id] + [next]];
        }
        k := k + 1;
      }
      assert links[..k] == current.connections;
    }

    /**
     * The reachability check: when the floor has an entrance and an exit,
     * searches from the entrance and, when the exit's id is not marked,
     * repairs the exit as `RepairExit` does. Returns the marked ids and
     * the room it linked to the exit, if any.
     */
    method ValidateDungeon() returns (visited: set<int>, closest: Room?, ghost done: set<Room>, ghost paths: map<int, seq<Room>>)
      requires Valid()
      modifies world`connections
      ensures Valid()
      ensures entranceRoom == null || exitRoom == null ==> visited == {} && done == {}
      ensures entranceRoom != null && exitRoom != null ==>
                entranceRoom.id in visited && entranceRoom in done && done <= world
      ensures forall v :: v in visited ==>
                v in paths && EndOf(paths, v) in done && Within(paths[v], old(world)) && old(ReachPath(paths[v], entranceRoom, v))
      ensures forall r :: r in done ==> r.id in visited && forall c :: c in old(r.connections) ==> c.id in visited
      ensures closest == null ==> forall r :: r in world ==> r.connections == old(r.connections)
      ensures closest != null ==>
                entranceRoom != null && exitRoom != null && exitRoom.id !in visited &&
                NearestReached(closest, visited) && closest.IsConnectedTo(exitRoom.id) &&
                forall r :: r in old(world) && r != closest && r != exitRoom ==> r.connections == old(r.connections)
      ensures closest != null ==>
                (old(closest.IsConnectedTo(exitRoom.id)) || exitRoom.IsConnectedTo(closest.id)) &&
                old(closest.connections) <= closest.connections && old(exitRoom.connections) <= exitRoom.connections &&
                (forall c :: c in closest.connections ==> c in old(closest.connections) || c == exitRoom) &&
                (forall c :: c in exitRoom.connections ==> c in old(exitRoom.connections) || c == closest)
      ensures closest == null && entranceRoom != null && exitRoom != null && exitRoom.id !in visited ==>
                forall i :: 0 <= i < |rooms| && rooms[i].id in visited ==> DistanceTo(rooms[i], exitRoom.posX, exitRoom.posY) >= IntMax
    {
      visited, closest, done, paths := {}, null, {}, map[];
      if entranceRoom == null || exitRoom == null {
        return;
      }
      visited, done, paths := Reachable();
      if exitRoom.id !in visited {
        closest := RepairExit(visited);
        assert closest != null ==> closest in old(world) && exitRoom in old(world);
      }
    }

    /**
     * The exit repair: links the exit to the room `ClosestReached` finds
     * among those with an id in `visited`, when there is one.
     */
    method RepairExit(visited: set<int>) returns (closest: Room?)
      requires Valid() && exitRoom != null && exitRoom.id !in visited
      modifies world`connections
      ensures Valid()
      ensures closest == null ==>
                (forall r :: r in world ==> r.connections == old(r.connections)) &&
                forall i :: 0 <= i < |rooms| && rooms[i].id in visited ==> DistanceTo(rooms[i], exitRoom.posX, exitRoom.posY) >= IntMax
      ensures closest != null ==>
                NearestReached(closest, visited) && closest.IsConnectedTo(exitRoom.id) &&
                forall r :: r in world && r != closest && r != exitRoom ==> r.connections == old(r.connections)
      ensures closest != null ==>
                (old(closest.IsConnectedTo(exitRoom.id)) || exitRoom.IsConnectedTo(closest.id)) &&
                old(closest.connections) <= closest.connections && old(exitRoom.connections) <= exitRoom.connections &&
                (forall c :: c in closest.connections ==> c in old(closest.connections) || c == exitRoom) &&
                (forall c :: c in exitRoom.connections ==> c in old(exitRoom.connections) || c == closest)
    {
      var at;
      closest, at := ClosestReached(visited, exitRoom.posX, exitRoom.posY);
      if closest != null {
        assert closest.id == at && closest in world;
        ghost var layout := Layout();
        Join(closest, exitRoom);
        assert Layout() == layout;
      }
    }

    /**
     * `closest` is a room of the floor with an id in `visited`, and the
     * first room of the floor, in floor order, among those with an id in
     * `visited` that are nearest to the exit.
     */
    ghost predicate NearestReached(closest: Room, visited: set<int>)
      reads this, rooms, exitRoom
      requires exitRoom != null
    {
      closest in rooms && closest.id in visited &&
      forall i :: 0 <= i < |rooms| && rooms[i].id in visited ==>
        DistanceTo(rooms[i], exitRoom.posX, exitRoom.posY) >= DistanceTo(closest, exitRoom.posX, exitRoom.posY) &&
        (i < closest.id ==> DistanceTo(rooms[i], exitRoom.posX, exitRoom.posY) > DistanceTo(closest, exitRoom.posX, exitRoom.posY))
    }

    /**
     * The first room of the floor, in floor order, with an id in `marked`
     * and nearest to (x, y) among those, when one is nearer than `int`
     * maximum; `at` is its index, or the number of rooms when there is none.
     */
    method ClosestReached(marked: set<int>, x: int, y: int) returns (closest: Room?, at: int)
      ensures 0 <= at <= |rooms| && (closest == null <==> at == |rooms|)
      ensures at < |rooms| ==>
                closest == rooms[at] && rooms[at].id in marked && DistanceTo(closest, x, y) < IntMax &&
                forall i :: 0 <= i < |rooms| && rooms[i].id in marked ==>
                  DistanceTo(rooms[i], x, y) >= DistanceTo(closest, x, y) &&
                  (i < at ==> DistanceTo(rooms[i], x, y) > DistanceTo(closest, x, y))
      ensures at == |rooms| ==> forall i :: 0 <= i < |rooms| && rooms[i].id in marked ==> DistanceTo(rooms[i], x, y) >= IntMax
    {
      closest, at := null, |rooms|;
      var minDistance := IntMax;
      var i := 0;
      while i < |rooms|
        invariant 0 <= i <= |rooms| && 0 <= at <= |rooms| && (closest == null <==> at == |rooms|)
        invariant at == |rooms| ==> minDistance == IntMax
        invariant at < |rooms| ==>
                    at < i && closest == rooms[at] && rooms[at].id in marked && minDistance == DistanceTo(closest, x, y) < IntMax
        invariant minDistance <= IntMax
        invariant forall j :: 0 <= j < i && rooms[j].id in marked ==>
                    DistanceTo(rooms[j], x, y) >= minDistance && (j < at < |rooms| ==> DistanceTo(rooms[j], x, y) > minDistance)
      {
        if rooms[i].id in marked {
          var distance := Abs(rooms[i].posX - x) + Abs(rooms[i].posY - y);
          if distance < minDistance {
            minDistance := distance;
            closest, at := rooms[i], i;
          }
        }
        i := i + 1;
      }
    }

    /**
     * Generates a floor for `p`: lays out the rooms, adds loops, converts
     * normal rooms to treasure rooms, gives every room its encounter and
     * repairs the exit's reachability. Returns the rooms of the floor.
     */
    method GenerateFloor(p: Params) returns (floor: seq<Room>)
      requires p.width >= 1 && p.height >= 1 && p.numRooms < 0x8000_0000
      modifies this`cursor, this`rooms, this`entranceRoom, this`exitRoom, this`bossRoom, this`grid, this`world, this`cells
      ensures floor == rooms && Valid() && 1 <= |rooms| <= RoomTarget(p)
      ensures forall r :: r in world ==> fresh(r)
      ensures entranceRoom != null && rooms[0] == entranceRoom && entranceRoom.posX == 0 && entranceRoom.posY == p.height / 2
    {
      LayOut(p);
      CreateRandomLoops(p.loopChance);
      Furnish(p);
      var visited, closest, done, paths := ValidateDungeon();
      floor := rooms;
    }

    /**
     * The middle of `GenerateFloor`: converts normal rooms to treasure
     * rooms and gives every room its encounter, measured from the
     * entrance. The number of rooms stays.
     */
    method Furnish(p: Params)
      requires Valid() && |rooms| < 0x8000_0000 && entranceRoom != null
      modifies this`cursor, this`world, this`grid, this`rooms, world`encounter
      ensures Valid() && |rooms| == old(|rooms|) && fresh(world - old(world))
      ensures forall i :: 0 <= i < |rooms| ==>
                Equipped(rooms[i], p.difficulty, entranceRoom.posX, entranceRoom.posY, |grid|, |grid[0]|)
    {
      var order, n := PlaceTreasure(p.numTreasureRooms);
      ghost var w1 := world;
      assert fresh(w1 - old(world));
      AssignEncounters(p.difficulty);
      assert world == w1;
    }

    /**
     * The first half of `GenerateFloor`: forgets the old floor, sizes the
     * grid, places the entrance on the west edge half way down, walks
     * towards `RoomTarget(p)` rooms and supplies a missing exit and boss.
     */
    method LayOut(p: Params)
      requires p.width >= 1 && p.height >= 1 && p.numRooms < 0x8000_0000
      modifies this`cursor, this`rooms, this`entranceRoom, this`exitRoom, this`bossRoom, this`grid, this`world, this`cells
      ensures Valid() && 1 <= |rooms| <= RoomTarget(p)
      ensures forall r :: r in world ==> fresh(r)
      ensures entranceRoom != null && rooms[0] == entranceRoom && entranceRoom.posX == 0 && entranceRoom.posY == p.height / 2
    {
      var entrance := PlaceEntrance(p.width, p.height);
      Walk(p, RoomTarget(p));
      assert (forall r :: r in world ==> fresh(r)) && entranceRoom == entrance == rooms[0];
      ExitFallback(0, p.height / 2);
      assert (forall r :: r in world ==> fresh(r)) && entranceRoom == entrance == rooms[0];
      BossFallback(p.hasBossRoom);
      assert (forall r :: r in world ==> fresh(r)) && entranceRoom == entrance == rooms[0];
    }

    /**
     * Forgets the old floor, sizes the grid to `width` by `height` and
     * places the entrance, the only room, on cell (0, height / 2).
     */
    method PlaceEntrance(width: int, height: int) returns (entrance: Room)
      requires width >= 1 && height >= 1
      modifies this`cursor, this`rooms, this`entranceRoom, this`exitRoom, this`bossRoom, this`grid, this`world, this`cells
      ensures Valid() && rooms == [entrance] && world == {entrance} && fresh(entrance)
      ensures entranceRoom == entrance && exitRoom == null && bossRoom == null && cursor == old(cursor)
      ensures entrance.kind == Entrance && entrance.posX == 0 && entrance.posY == height / 2
      ensures entrance.connections == [] && entrance.encounter == NoEncounter
      ensures Rect(grid) && Width() == width && Height() == height
    {
      Clear();
      InitializeGrid(width, height);
      assert Valid();
      entrance := AddRoom(Entrance, 0, height / 2);
      entranceRoom := entrance;
      assert Valid();
    }

    /** The index of the first room of the floor with id `id`, or the number of rooms when there is none. */
    method IndexOfId(id: int) returns (i: int)
      ensures 0 <= i <= |rooms| && (i < |rooms| ==> rooms[i].id == id)
      ensures forall j :: 0 <= j < i ==> rooms[j].id != id
      ensures Valid() ==> i == if 0 <= id < |rooms| then id else |rooms|
    {
      i := 0;
      while i < |rooms| && rooms[i].id != id
        invariant 0 <= i <= |rooms|
        invariant forall j :: 0 <= j < i ==> rooms[j].id != id
      {
        i := i + 1;
      }
      if Valid() && 0 <= id < |rooms| {
        assert rooms[id].id == id;
      }
    }

    /** `ConnectRooms` on two distinct rooms of the floor that are not yet linked either way. */
    method Link(room1: Room, room2: Room)
      requires Linked() && room1 in world && room2 in world && room1 != room2
      requires !room1.IsConnectedTo(room2.id) && !room2.IsConnectedTo(room1.id)
      modifies room1`connections, room2`connections
      ensures room1.connections == old(room1.connections) + [room2]
      ensures room2.connections == old(room2.connections) + [room1]
      ensures Linked()
    {
      ConnectRooms(room1, room2);
      forall r | r in world
        ensures 0 <= r.id < |rooms| && forall c :: c in r.connections ==> c in world
      {
        if r != room1 && r != room2 {
          assert r.connections == old(r.connections);
        }
      }
    }

    /** A consistent floor has only created rooms on its grid. */
    lemma GridRoomsInWorld()
      requires Layout() && Linked()
      ensures GridInWorld()
    {
      forall y, x | 0 <= y < |grid| && 0 <= x < |grid[y]| && grid[y][x] != null
        ensures grid[y][x] in world
      {
        assert rooms[grid[y][x].id] == grid[y][x];
      }
    }

    /** The room on an occupied cell is the room whose index is its id. */
    lemma RoomOnCell(x: int, y: int)
      requires Layout() && Occupied(grid, x, y)
      ensures 0 <= grid[y][x].id < |rooms| && rooms[grid[y][x].id] == grid[y][x] && grid[y][x] in rooms
      ensures cells[grid[y][x].id] == (x, y)
    {
    }

    /** A room of the floor links no room with an id the floor has not yet handed out. */
    lemma NotLinkedToNewId(top: Room)
      requires Linked() && top in world
      ensures !top.IsConnectedTo(|rooms|)
    {
    }

    /** The first room with id `id`, or null when there is none. */
    method GetRoom(id: int) returns (room: Room?)
      ensures room != null ==> room in rooms && room.id == id
      ensures room == null ==> forall i :: 0 <= i < |rooms| ==> rooms[i].id != id
      ensures Valid() ==> room == if 0 <= id < |rooms| then rooms[id] else null
    {
      var i := 0;
      while i < |rooms|
        invariant 0 <= i <= |rooms|
        invariant forall j :: 0 <= j < i ==> rooms[j].id != id
      {
        if rooms[i].id == id {
          return rooms[i];
        }
        i := i + 1;
      }
      return null;
    }
  }
}
