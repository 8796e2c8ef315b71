/**
 * A room of a dungeon floor: its type, description, visit and clear
 * flags, grid position, links to neighbouring rooms, encounter and a
 * string-to-string property table.
 */
module Rooms {
  import opened Encounters

  /** The five kinds of room. */
  datatype RoomType = Normal | Treasure | Boss | Entrance | Exit

  const NormalDescription := "A standard dungeon room with stone walls and dim lighting."
  const TreasureDescription := "A room filled with glittering treasures and valuable items."
  const BossDescription := "A large chamber with ominous decorations, perfect for a powerful foe."
  const EntranceDescription := "The entrance to this floor of the dungeon."
  const ExitDescription := "A room with stairs leading to the next level of the dungeon."

  /** The description a room starts with, chosen by its type. */
  function DefaultRoomDescription(kind: RoomType): string
  {
    match kind
    case Normal => NormalDescription
    case Treasure => TreasureDescription
    case Boss => BossDescription
    case Entrance => EntranceDescription
    case Exit => ExitDescription
  }

  /** The ids of a list of rooms, in order. */
  function IdsOf(rs: seq<Room>): (ids: seq<int>)
    ensures |ids| == |rs|
    ensures forall i :: 0 <= i < |rs| ==> ids[i] == rs[i].id
  {
    if rs == [] then [] else IdsOf(rs[..|rs| - 1]) + [rs[|rs| - 1].id]
  }

  /** The list without the rooms whose id is `k`, the others kept in order. */
  function Drop(rs: seq<Room>, k: int): (kept: seq<Room>)
    ensures forall i :: 0 <= i < |kept| ==> kept[i] in rs && kept[i].id != k
    ensures forall i :: 0 <= i < |rs| && rs[i].id != k ==> rs[i] in kept
  {
    if rs == [] then []
    else if rs[0].id == k then Drop(rs[1..], k)
    else [rs[0]] + Drop(rs[1..], k)
  }

  /** The list without its first room of id `k` (unchanged when there is none). */
  function RemoveFirst(rs: seq<Room>, k: int): (r: seq<Room>)
  {
    if rs == [] then []
    else if rs[0].id == k then rs[1..]
    else [rs[0]] + RemoveFirst(rs[1..], k)
  }

  /** The first room of id `k` in the list. */
  function FirstWith(rs: seq<Room>, k: int): (r: Room)
    requires k in IdsOf(rs)
    ensures r in rs && r.id == k
  {
    if rs[0].id == k then rs[0] else FirstWith(rs[1..], k)
  }

  /** The ids in a list are pairwise distinct. */
  predicate DistinctIds(rs: seq<Room>)
  {
    forall i, j :: 0 <= i < j < |rs| ==> rs[i].id != rs[j].id
  }

  /** Removing the first room of id `k` takes out one room when there is one, and nothing otherwise. */
  lemma {:induction false} RemoveFirstLength(rs: seq<Room>, k: int)
    ensures k in IdsOf(rs) ==> |RemoveFirst(rs, k)| == |rs| - 1
    ensures k !in IdsOf(rs) ==> RemoveFirst(rs, k) == rs
  {
    if rs != [] {
      RemoveFirstLength(rs[1..], k);
      assert IdsOf(rs) == [rs[0].id] + IdsOf(rs[1..]) by {
        IdsCons(rs);
      }
    }
  }

  lemma IdsCons(rs: seq<Room>)
    requires rs != []
    ensures IdsOf(rs) == [rs[0].id] + IdsOf(rs[1..])
  {
  }

  /** Removing a room adds none. */
  lemma {:induction false} RemoveFirstSub(rs: seq<Room>, k: int)
    ensures multiset(RemoveFirst(rs, k)) <= multiset(rs)
  {
    if rs != [] {
      RemoveFirstSub(rs[1..], k);
      assert rs == [rs[0]] + rs[1..];
    }
  }

  /** Removing one room of id `k` leaves the rooms of other ids as they were. */
  lemma {:induction false} DropRemoveFirst(rs: seq<Room>, k: int)
    ensures Drop(RemoveFirst(rs, k), k) == Drop(rs, k)
  {
    if rs != [] && rs[0].id != k {
      DropRemoveFirst(rs[1..], k);
      assert ([rs[0]] + RemoveFirst(rs[1..], k))[1..] == RemoveFirst(rs[1..], k);
    }
  }

  /** A list drawn from one without id `k` has no room of id `k` either. */
  lemma AbsentInSub(xs: seq<Room>, ys: seq<Room>, k: int)
    requires forall i :: 0 <= i < |xs| ==> xs[i].id != k
    requires multiset(ys) <= multiset(xs)
    ensures forall i :: 0 <= i < |ys| ==> ys[i].id != k
  {
    forall i | 0 <= i < |ys|
      ensures ys[i].id != k
    {
      assert ys[i] in multiset(ys);
      assert ys[i] in multiset(xs);
      assert ys[i] in xs;
    }
  }

  /** In a list with distinct ids, removing the first room of id `k` removes every room of id `k`. */
  lemma {:induction false} RemoveFirstDistinct(rs: seq<Room>, k: int)
    requires DistinctIds(rs)
    ensures RemoveFirst(rs, k) == Drop(rs, k)
    ensures DistinctIds(RemoveFirst(rs, k))
  {
    RemoveFirstKeepsDistinct(rs, k);
    if rs != [] {
      RemoveFirstDistinct(rs[1..], k);
      if rs[0].id == k {
        NoneWith(rs[1..], k);
      }
    }
  }

  /** Removing a room keeps the ids of a list distinct. */
  lemma {:induction false} RemoveFirstKeepsDistinct(rs: seq<Room>, k: int)
    requires DistinctIds(rs)
    ensures DistinctIds(RemoveFirst(rs, k))
  {
    if rs != [] && rs[0].id != k {
      var tail := rs[1..];
      assert DistinctIds(tail) by {
        forall i, j | 0 <= i < j < |tail|
          ensures tail[i].id != tail[j].id
        {
          assert tail[i] == rs[i + 1] && tail[j] == rs[j + 1];
        }
      }
      RemoveFirstKeepsDistinct(tail, k);
      forall m | 0 <= m < |tail|
        ensures tail[m].id != rs[0].id
      {
        assert tail[m] == rs[m + 1];
      }
      RemoveFirstAvoids(tail, k, rs[0].id);
      var r := RemoveFirst(tail, k);
      var q := [rs[0]] + r;
      forall i, j | 0 <= i < j < |q|
        ensures q[i].id != q[j].id
      {
        assert q[j] == r[j - 1];
        if i > 0 {
          assert q[i] == r[i - 1];
        }
      }
      assert RemoveFirst(rs, k) == q;
    } else if rs != [] {
      var tail := rs[1..];
      forall i, j | 0 <= i < j < |tail|
        ensures tail[i].id != tail[j].id
      {
        assert tail[i] == rs[i + 1] && tail[j] == rs[j + 1];
      }
    }
  }

  /** Removing a room never brings in an id the list did not have. */
  lemma {:induction false} RemoveFirstAvoids(rs: seq<Room>, k: int, a: int)
    requires forall m :: 0 <= m < |rs| ==> rs[m].id != a
    ensures forall i :: 0 <= i < |RemoveFirst(rs, k)| ==> RemoveFirst(rs, k)[i].id != a
  {
    if rs != [] && rs[0].id != k {
      assert forall m :: 0 <= m < |rs| - 1 ==> rs[1..][m] == rs[m + 1];
      RemoveFirstAvoids(rs[1..], k, a);
    } else if rs != [] {
      assert forall m :: 0 <= m < |rs| - 1 ==> rs[1..][m] == rs[m + 1];
    }
  }

  /** Dropping an id that no room in the list carries changes nothing. */
  lemma {:induction false} NoneWith(rs: seq<Room>, k: int)
    requires forall i :: 0 <= i < |rs| ==> rs[i].id != k
    ensures Drop(rs, k) == rs
  {
    if rs != [] {
      NoneWith(rs[1..], k);
    }
  }

  /** A list with no room of id `k` is unchanged by dropping `k`. */
  lemma DropAbsent(rs: seq<Room>, k: int)
    requires k !in IdsOf(rs)
    ensures Drop(rs, k) == rs
  {
    forall i | 0 <= i < |rs|
      ensures rs[i].id != k
    {
      assert IdsOf(rs)[i] == rs[i].id;
    }
    NoneWith(rs, k);
  }

  class Room {
    const id: int
    const kind: RoomType
    var description: string
    var visited: bool
    var cleared: bool
    var posX: int
    var posY: int
    /** The rooms this one links to, in the order the links were made. */
    var connections: seq<Room>
    var encounter: EncounterRef
    var properties: map<string, string>

    /** A new room: not visited, not cleared, at (0, 0), without links, encounter or properties. */
    constructor(id: int, kind: RoomType)
      ensures this.id == id && this.kind == kind
      ensures description == DefaultRoomDescription(kind)
      ensures !visited && !cleared && posX == 0 && posY == 0
      ensures connections == [] && encounter == NoEncounter && properties == map[]
    {
      this.id := id;
      this.kind := kind;
      description := DefaultRoomDescription(kind);
      visited := false;
      cleared := false;
      posX := 0;
      posY := 0;
      connections := [];
      encounter := NoEncounter;
      properties := map[];
    }

    /** Whether some linked room has id `roomId`. */
    predicate IsConnectedTo(roomId: int)
      reads this
    {
      roomId in IdsOf(connections)
    }

    /** No two links lead to rooms with the same id. */
    predicate Distinct()
      reads this
    {
      DistinctIds(connections)
    }

    /** How many of the two directions between this room and `room` are still missing. */
    function MissingLinks(room: Room?): nat
      reads this, room
    {
      if room == null then 0
      else (if IsConnectedTo(room.id) then 0 else 1) + (if room.IsConnectedTo(id) then 0 else 1)
    }

    /**
     * Links this room to `room` unless `room` is null or a room with its id
     * is already linked, then links `room` back unless it already links a
     * room with this room's id. A room linked to itself gets one link.
     */
    method AddConnection(room: Room?)
      modifies this`connections, (if room == null then {} else {room})`connections
      ensures room == null || old(IsConnectedTo(room.id)) ==> connections == old(connections)
      ensures room != null && room != this && old(IsConnectedTo(room.id)) ==>
                room.connections == old(room.connections)
      ensures room == this && !old(IsConnectedTo(id)) ==> connections == old(connections) + [this]
      ensures room != null && room != this && !old(IsConnectedTo(room.id)) ==>
                connections == old(connections) + [room] &&
                room.connections == if old(room.IsConnectedTo(id)) then old(room.connections)
                                    else old(room.connections) + [this]
      ensures room != null && !old(IsConnectedTo(room.id)) ==> IsConnectedTo(room.id) && room.IsConnectedTo(id)
      ensures old(Distinct()) ==> Distinct()
      ensures room != null && old(room.Distinct()) ==> room.Distinct()
      decreases MissingLinks(room)
    {
      if room == null || IsConnectedTo(room.id) {
        return;
      }
      PushDistinct(connections, room);
      connections := connections + [room];
      if !room.IsConnectedTo(id) {
        room.AddConnection(this);
      }
    }

    /**
     * Unlinks the first room of id `roomId`; when that room still links
     * a room with this room's id, unlinks it from its side in turn.
     * `world` is every room that can be reached through links; the calls
     * only ever remove links, each between a room of this id and a room
     * of `roomId`.
     */
    method RemoveConnection(roomId: int, ghost world: seq<Room>)
      requires this in world && Closed(world)
      modifies set r | r in world :: r`connections
      ensures Closed(world)
      ensures Shrunk(world, old(Links(world)), Links(world), id, roomId)
      ensures !old(IsConnectedTo(roomId)) ==> Links(world) == old(Links(world))
      ensures old(Distinct()) ==> connections == Drop(old(connections), roomId) && !IsConnectedTo(roomId)
      ensures old(IsConnectedTo(roomId)) ==>
                var other := old(FirstWith(connections, roomId));
                old(other.Distinct()) ==> !other.IsConnectedTo(id)
      decreases TotalLinks(world), 1
    {
      if !IsConnectedTo(roomId) {
        DropAbsent(connections, roomId);
        ShrunkRefl(world, Links(world), id, roomId);
        return;
      }
      Unlink(roomId, world);
    }

    /** The work of `RemoveConnection` once a room of id `roomId` is known to be linked. */
    method Unlink(roomId: int, ghost world: seq<Room>)
      requires this in world && Closed(world) && IsConnectedTo(roomId)
      modifies set r | r in world :: r`connections
      ensures Closed(world)
      ensures Shrunk(world, old(Links(world)), Links(world), id, roomId)
      ensures old(Distinct()) ==> connections == Drop(old(connections), roomId) && !IsConnectedTo(roomId)
      ensures var other := old(FirstWith(connections, roomId));
              old(other.Distinct()) ==> !other.IsConnectedTo(id)
      decreases TotalLinks(world), 0
    {
      ghost var links0 := Links(world);
      ghost var before := Lengths(world);
      ghost var initial := connections;
      var room := FirstWith(connections, roomId);
      RemoveFirstLength(initial, roomId);
      RemoveFirstSub(initial, roomId);
      DropRemoveFirst(initial, roomId);
      if Distinct() {
        RemoveFirstDistinct(initial, roomId);
      }
      connections := RemoveFirst(connections, roomId);
      ShorterTotal(world, before, this);
      StillClosed(world, this, initial);
      ghost var links1 := Links(world);
      ShrunkStep(world, links0, links1, this, id, roomId);
      ghost var removed := connections;
      if room.IsConnectedTo(id) {
        room.RemoveConnection(id, world);
      } else {
        ShrunkRefl(world, links1, roomId, id);
      }
      ghost var links2 := Links(world);
      ShrunkTrans(world, links0, links1, links2, id, roomId);
      if DistinctIds(initial) {
        ghost var j :| 0 <= j < |world| && world[j] == this;
        ShrunkAt(world, links1, links2, j, id, roomId);
        NoneLeft(initial, removed, connections, roomId);
      }
    }

    /** Marks the room visited; a second visit changes nothing. */
    method Visit()
      modifies this`visited
      ensures visited
    {
      if !visited {
        visited := true;
      }
    }

    /** Marks the room cleared; clearing again changes nothing. */
    method Clear()
      modifies this`cleared
      ensures cleared
    {
      if !cleared {
        cleared := true;
      }
    }

    method SetEncounter(e: EncounterRef)
      modifies this`encounter
      ensures encounter == e
    {
      encounter := e;
    }

    method SetDescription(d: string)
      modifies this`description
      ensures description == d
    {
      description := d;
    }

    method SetPosition(x: int, y: int)
      modifies this`posX, this`posY
      ensures posX == x && posY == y
    {
      posX := x;
      posY := y;
    }

    /** Sets or overwrites one property. */
    method SetProperty(key: string, value: string)
      modifies this`properties
      ensures properties == old(properties)[key := value]
      ensures GetProperty(key) == value && HasProperty(key)
      ensures forall k :: k != key ==> GetProperty(k) == old(GetProperty(k))
    {
      properties := properties[key := value];
    }

    /** The value stored under `key`, or the empty string when there is none. */
    function GetProperty(key: string): (v: string)
      reads this
      ensures HasProperty(key) ==> v == properties[key]
      ensures !HasProperty(key) ==> v == ""
    {
      if key in properties then properties[key] else ""
    }

    predicate HasProperty(key: string)
      reads this
    {
      key in properties
    }
  }

  /** Every room linked from a room of `world` is in `world`. */
  ghost predicate Closed(world: seq<Room>)
    reads set r | r in world
  {
    forall r, c :: r in world && c in r.connections ==> c in world
  }

  /** The links of each room of `world`. */
  ghost function Links(world: seq<Room>): (ls: seq<seq<Room>>)
    reads set r | r in world
    ensures |ls| == |world|
    ensures forall i :: 0 <= i < |world| ==> ls[i] == world[i].connections
  {
    seq(|world|, i reads set r | r in world requires 0 <= i < |world| => world[i].connections)
  }

  /**
   * From `before` to `after`, the rooms of `world` only lost links, and
   * only links between a room of id `a` and a room of id `b`.
   */
  ghost predicate Shrunk(world: seq<Room>, before: seq<seq<Room>>, after: seq<seq<Room>>, a: int, b: int)
  {
    |before| == |world| && |after| == |world| &&
    forall i :: 0 <= i < |world| ==> Narrowed(world[i].id, before[i], after[i], a, b)
  }

  /** `after` is `before` less some links between ids `a` and `b`, seen from a room of id `id`. */
  ghost predicate Narrowed(id: int, before: seq<Room>, after: seq<Room>, a: int, b: int)
  {
    multiset(after) <= multiset(before) &&
    (id != a && id != b ==> after == before) &&
    (id == a ==> Drop(after, b) == Drop(before, b)) &&
    (id == b ==> Drop(after, a) == Drop(before, a))
  }

  lemma ShrunkRefl(world: seq<Room>, links: seq<seq<Room>>, a: int, b: int)
    requires |links| == |world|
    ensures Shrunk(world, links, links, a, b)
  {
  }

  /** Removing one link of id `b` from a room of id `a`, and touching no other room, narrows `world`. */
  lemma ShrunkStep(world: seq<Room>, before: seq<seq<Room>>, after: seq<seq<Room>>, room: Room, a: int, b: int)
    requires |before| == |world| == |after| && room.id == a
    requires forall i :: 0 <= i < |world| && world[i] != room ==> after[i] == before[i]
    requires forall i :: 0 <= i < |world| && world[i] == room ==>
               multiset(after[i]) <= multiset(before[i]) && Drop(after[i], b) == Drop(before[i], b)
    ensures Shrunk(world, before, after, a, b)
  {
    forall i | 0 <= i < |world|
      ensures Narrowed(world[i].id, before[i], after[i], a, b)
    {
      if world[i] == room {
        assert Drop(after[i], b) == Drop(before[i], b);
      }
    }
  }

  /** Narrowing twice, from either side, is narrowing. */
  lemma ShrunkTrans(world: seq<Room>, s0: seq<seq<Room>>, s1: seq<seq<Room>>, s2: seq<seq<Room>>, a: int, b: int)
    requires Shrunk(world, s0, s1, a, b) && Shrunk(world, s1, s2, b, a)
    ensures Shrunk(world, s0, s2, a, b)
  {
    forall i | 0 <= i < |world|
      ensures Narrowed(world[i].id, s0[i], s2[i], a, b)
    {
      assert Narrowed(world[i].id, s0[i], s1[i], a, b);
      assert Narrowed(world[i].id, s1[i], s2[i], b, a);
    }
  }

  /** What narrowing says about a room of id `a` at index `j`. */
  lemma ShrunkAt(world: seq<Room>, before: seq<seq<Room>>, after: seq<seq<Room>>, j: nat, a: int, b: int)
    requires Shrunk(world, before, after, b, a)
    requires j < |world| && world[j].id == a
    ensures multiset(after[j]) <= multiset(before[j]) && Drop(after[j], b) == Drop(before[j], b)
  {
    assert Narrowed(world[j].id, before[j], after[j], b, a);
  }

  /** The number of links of each room of `world`. */
  ghost function Lengths(world: seq<Room>): (ls: seq<nat>)
    reads set r | r in world
    ensures |ls| == |world|
    ensures forall i :: 0 <= i < |world| ==> ls[i] == |world[i].connections|
  {
    seq(|world|, i reads set r | r in world requires 0 <= i < |world| => |world[i].connections|)
  }

  /** The number of links over all of `world`. */
  ghost function TotalLinks(world: seq<Room>): nat
    reads set r | r in world
  {
    Sum(Lengths(world))
  }

  function Sum(xs: seq<nat>): nat
  {
    if xs == [] then 0 else Sum(xs[..|xs| - 1]) + xs[|xs| - 1]
  }

  /** A list no larger anywhere, and smaller somewhere, has a smaller sum. */
  lemma {:induction false} SumSmaller(xs: seq<nat>, ys: seq<nat>, j: nat)
    requires |xs| == |ys| && j < |xs|
    requires forall i :: 0 <= i < |xs| ==> ys[i] <= xs[i]
    requires ys[j] < xs[j]
    ensures Sum(ys) < Sum(xs)
  {
    var n := |xs| - 1;
    if j == n {
      SumNoLarger(xs[..n], ys[..n]);
    } else {
      SumSmaller(xs[..n], ys[..n], j);
    }
  }

  lemma {:induction false} SumNoLarger(xs: seq<nat>, ys: seq<nat>)
    requires |xs| == |ys|
    requires forall i :: 0 <= i < |xs| ==> ys[i] <= xs[i]
    ensures Sum(ys) <= Sum(xs)
  {
    if xs != [] {
      var n := |xs| - 1;
      SumNoLarger(xs[..n], ys[..n]);
    }
  }

  /** Once `room` has lost a link and no other room of `world` has changed, `world` has fewer links. */
  lemma ShorterTotal(world: seq<Room>, before: seq<nat>, room: Room)
    requires room in world && |before| == |world|
    requires forall i :: 0 <= i < |world| && world[i] != room ==> before[i] == |world[i].connections|
    requires forall i :: 0 <= i < |world| && world[i] == room ==> |room.connections| < before[i]
    ensures TotalLinks(world) < Sum(before)
  {
    var j :| 0 <= j < |world| && world[j] == room;
    SumSmaller(before, Lengths(world), j);
  }

  /** Shrinking the links of one room of a closed `world` keeps it closed. */
  lemma StillClosed(world: seq<Room>, room: Room, before: seq<Room>)
    requires room in world
    requires forall r, c :: r in world && r != room && c in r.connections ==> c in world
    requires forall c :: c in before ==> c in world
    requires multiset(room.connections) <= multiset(before)
    ensures Closed(world)
  {
    forall c | c in room.connections
      ensures c in world
    {
      assert c in multiset(room.connections);
      assert c in multiset(before);
    }
  }

  /**
   * Once the only room of id `k` is removed from a list with distinct
   * ids, a later list drawn from the result neither has id `k` nor differs
   * from the first removal.
   */
  lemma NoneLeft(initial: seq<Room>, removed: seq<Room>, final: seq<Room>, k: int)
    requires DistinctIds(initial) && removed == Drop(initial, k)
    requires multiset(final) <= multiset(removed)
    requires Drop(final, k) == Drop(removed, k)
    ensures final == Drop(initial, k) && k !in IdsOf(final)
  {
    AbsentInSub(removed, final, k);
    NoneWith(removed, k);
    NoneWith(final, k);
  }

  /** Appending a room whose id the list lacks keeps its ids distinct. */
  lemma PushDistinct(rs: seq<Room>, r: Room)
    requires r.id !in IdsOf(rs)
    ensures DistinctIds(rs) ==> DistinctIds(rs + [r])
    ensures IdsOf(rs + [r]) == IdsOf(rs) + [r.id]
  {
    forall i | 0 <= i < |rs|
      ensures rs[i].id != r.id
    {
      assert IdsOf(rs)[i] == rs[i].id;
    }
  }
}
