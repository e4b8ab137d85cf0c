/**
 * tools/paint_school.js: the castle painter. The ground layer is a flat
 * array of 100×100 tile ids (cell (x, y) at index 100·y + x), reset to all
 * grass (1); rooms paint floor (2) surrounded by a wall ring (3) that gets
 * one 32×32 collider per wall cell, corridors paint floor and remove the
 * colliders whose origin lies on them, and doors open two cells of a wall.
 */
module PaintSchool {
  import opened Wrappers
  import opened Seqs

  const Width: int := 100
  const Height: int := 100
  const TileSize: int := 32
  const Grass: int := 1
  const Floor: int := 2
  const WallTile: int := 3

  /** A collider of the Collisions layer; the painter always makes 32×32 visible "Wall" objects. */
  datatype Collider = Collider(x: int, y: int, width: int, height: int)

  /** A "Zone" object of the Entities layer, one per room. */
  datatype Zone = Zone(name: string, x: int, y: int, width: int, height: int)

  /** Flat index of tile (x, y); coordinates past a row's end run into the next row, as in the source. */
  function Cell(x: int, y: int): int { y * Width + x }

  /** The collider `addCollision(tx, ty)` pushes. */
  function Wall(tx: int, ty: int): Collider {
    Collider(tx * TileSize, ty * TileSize, TileSize, TileSize)
  }

  /** The collider's origin is the top-left corner of tile (tx, ty). */
  predicate OriginAt(c: Collider, tx: int, ty: int) {
    c.x == tx * TileSize && c.y == ty * TileSize
  }

  /** `clearCollision`'s filter: the colliders whose origin is not at tile (tx, ty), in order. */
  function Without(cs: seq<Collider>, tx: int, ty: int): seq<Collider> {
    Filter(cs, c => !OriginAt(c, tx, ty))
  }

  /** (x, y) is a floor cell of the room at (tx, ty) of size tw×th. */
  predicate InFloor(tx: int, ty: int, tw: int, th: int, x: int, y: int) {
    tx <= x < tx + tw && ty <= y < ty + th
  }

  /** (x, y) is on the one-cell wall ring around that room, corners included. */
  predicate InRing(tx: int, ty: int, tw: int, th: int, x: int, y: int) {
    (tx - 1 <= x <= tx + tw && (y == ty - 1 || y == ty + th))
    || (ty <= y < ty + th && (x == tx - 1 || x == tx + tw))
  }

  /** The room lies inside the grid together with its ring. */
  predicate RoomFits(tx: int, ty: int, tw: int, th: int) {
    1 <= tx && 1 <= ty && 0 <= tw && 0 <= th && tx + tw < Width && ty + th < Height
  }

  /** The colliders of the first wall loop, for x = tx − 1 up to tx − 2 + n: top then bottom wall at each x. */
  function RowWalls(tx: int, ty: int, th: int, n: nat): seq<Collider> {
    if n == 0 then [] else RowWalls(tx, ty, th, n - 1) + [Wall(tx - 1 + (n - 1), ty - 1), Wall(tx - 1 + (n - 1), ty + th)]
  }

  /** The colliders of the second wall loop, for y = ty up to ty + n − 1: left then right wall at each y. */
  function SideWalls(tx: int, ty: int, tw: int, n: nat): seq<Collider> {
    if n == 0 then [] else SideWalls(tx, ty, tw, n - 1) + [Wall(tx - 1, ty + (n - 1)), Wall(tx + tw, ty + (n - 1))]
  }

  /** Every collider `paintRoom` pushes, in push order. */
  function RoomWalls(tx: int, ty: int, tw: nat, th: nat): seq<Collider> {
    RowWalls(tx, ty, th, tw + 2) + SideWalls(tx, ty, tw, th)
  }

  /** The inclusive corridor rectangle contains (x, y), whatever the order of the corners. */
  predicate InCorridor(x1: int, y1: int, x2: int, y2: int, x: int, y: int) {
    Min(x1, x2) <= x <= Max(x1, x2) && Min(y1, y2) <= y <= Max(y1, y2)
  }

  function Min(a: int, b: int): int { if a < b then a else b }
  function Max(a: int, b: int): int { if a < b then b else a }

  /** The collider's origin is the corner of a tile of the corridor. */
  predicate OnCorridor(c: Collider, x1: int, y1: int, x2: int, y2: int) {
    c.x % TileSize == 0 && c.y % TileSize == 0 && InCorridor(x1, y1, x2, y2, c.x / TileSize, c.y / TileSize)
  }

  /** The colliders left once a corridor is painted: exactly those whose origin is off the corridor, in order. */
  function CorridorKeeps(cs: seq<Collider>, x1: int, y1: int, x2: int, y2: int): seq<Collider> {
    Filter(cs, c => !OnCorridor(c, x1, y1, x2, y2))
  }

  /** The origin of a collider is at tile (x, y) exactly when it is the tile's corner. */
  lemma OriginAtTile(c: Collider, x: int, y: int)
    ensures OriginAt(c, x, y) <==> (c.x % TileSize == 0 && c.y % TileSize == 0 && c.x / TileSize == x && c.y / TileSize == y)
  {
  }

  /** The door cell of `addDoor` for a side; an unknown side leaves it undefined. */
  function DoorCell(rx: int, ry: int, rw: int, rh: int, side: string): Option<(int, int)> {
    if side == "bottom" then Some((rx + rw / 2, ry + rh))
    else if side == "top" then Some((rx + rw / 2, ry - 1))
    else if side == "right" then Some((rx + rw, ry + rh / 2))
    else if side == "left" then Some((rx - 1, ry + rh / 2))
    else None
  }

  /** The ground layer, the collision list and the zone list the painter rewrites. */
  class Painter {
    const data: array<int>
    var collisions: seq<Collider>
    var zones: seq<Zone>

    predicate Valid()
      reads this
    {
      data.Length == Width * Height
    }

    /** The reset: all grass, no colliders, no zones. */
    constructor ()
      ensures Valid() && fresh(data)
      ensures forall i :: 0 <= i < data.Length ==> data[i] == Grass
      ensures collisions == [] && zones == []
    {
      data := new int[Width * Height](_ => Grass);
      collisions := [];
      zones := [];
    }

    /** `addCollision`: one wall collider at tile (tx, ty) is appended. */
    method AddCollision(tx: int, ty: int)
      modifies this
      ensures collisions == old(collisions) + [Wall(tx, ty)]
      ensures zones == old(zones)
    {
      collisions := collisions + [Wall(tx, ty)];
    }

    /** `clearCollision`: every collider with its origin at tile (tx, ty) is removed, the rest keep their order. */
    method ClearCollision(tx: int, ty: int)
      modifies this
      ensures collisions == Without(old(collisions), tx, ty)
      ensures zones == old(zones)
    {
      collisions := Filter(collisions, c => !OriginAt(c, tx, ty));
    }

    /**
     * `paintRoom`: the floor rectangle holds 2, its ring holds 3, no other
     * cell changes; one collider per ring position is appended (the corners
     * are visited by the row loop only) and one zone.
     */
    method PaintRoom(name: string, tx: int, ty: int, tw: nat, th: nat)
      requires Valid() && RoomFits(tx, ty, tw, th)
      modifies this, data
      ensures Valid()
      ensures forall y, x :: 0 <= x < Width && 0 <= y < Height ==>
        data[Cell(x, y)] == (if InFloor(tx, ty, tw, th, x, y) then Floor
                             else if InRing(tx, ty, tw, th, x, y) then WallTile
                             else old(data[Cell(x, y)]))
      ensures collisions == old(collisions) + RoomWalls(tx, ty, tw, th)
      ensures zones == old(zones) + [Zone(name, tx * TileSize, ty * TileSize, tw * TileSize, th * TileSize)]
    {
      PaintFloor(tx, ty, tw, th);
      PaintRowWalls(tx, ty, tw, th);
      PaintSideWalls(tx, ty, tw, th);
      zones := zones + [Zone(name, tx * TileSize, ty * TileSize, tw * TileSize, th * TileSize)];
    }

    /** The first wall loop of `paintRoom`: the rows above and below the room, corners included. */
    method PaintRowWalls(tx: int, ty: int, tw: nat, th: nat)
      requires Valid() && RoomFits(tx, ty, tw, th)
      modifies this, data
      ensures Valid()
      ensures forall y, x :: 0 <= x < Width && 0 <= y < Height ==>
        data[Cell(x, y)] == (if (y == ty - 1 || y == ty + th) && tx - 1 <= x <= tx + tw then WallTile
                             else old(data[Cell(x, y)]))
      ensures collisions == old(collisions) + RowWalls(tx, ty, th, tw + 2)
      ensures zones == old(zones)
    {
      for x := tx - 1 to tx + tw + 1
        invariant Valid()
        invariant forall yy, xx :: 0 <= xx < Width && 0 <= yy < Height ==>
          data[Cell(xx, yy)] == (if (yy == ty - 1 || yy == ty + th) && tx - 1 <= xx < x then WallTile
                                 else old(data[Cell(xx, yy)]))
        invariant collisions == old(collisions) + RowWalls(tx, ty, th, x - (tx - 1))
        invariant zones == old(zones)
      {
        data[Cell(x, ty - 1)] := WallTile;
        AddCollision(x, ty - 1);
        data[Cell(x, ty + th)] := WallTile;
        AddCollision(x, ty + th);
      }
    }

    /** The second wall loop of `paintRoom`: the columns left and right of the room. */
    method PaintSideWalls(tx: int, ty: int, tw: nat, th: nat)
      requires Valid() && RoomFits(tx, ty, tw, th)
      modifies this, data
      ensures Valid()
      ensures forall y, x :: 0 <= x < Width && 0 <= y < Height ==>
        data[Cell(x, y)] == (if (x == tx - 1 || x == tx + tw) && ty <= y < ty + th then WallTile
                             else old(data[Cell(x, y)]))
      ensures collisions == old(collisions) + SideWalls(tx, ty, tw, th)
      ensures zones == old(zones)
    {
      for y := ty to ty + th
        invariant Valid()
        invariant forall yy, xx :: 0 <= xx < Width && 0 <= yy < Height ==>
          data[Cell(xx, yy)] == (if (xx == tx - 1 || xx == tx + tw) && ty <= yy < y then WallTile
                                 else old(data[Cell(xx, yy)]))
        invariant collisions == old(collisions) + SideWalls(tx, ty, tw, y - ty)
        invariant zones == old(zones)
      {
        data[Cell(tx - 1, y)] := WallTile;
        AddCollision(tx - 1, y);
        data[Cell(tx + tw, y)] := WallTile;
        AddCollision(tx + tw, y);
      }
    }

    /** The floor loop of `paintRoom`: the rectangle holds 2 and nothing else changes. */
    method PaintFloor(tx: int, ty: int, tw: nat, th: nat)
      requires Valid() && RoomFits(tx, ty, tw, th)
      modifies data
      ensures forall y, x :: 0 <= x < Width && 0 <= y < Height ==>
        data[Cell(x, y)] == (if InFloor(tx, ty, tw, th, x, y) then Floor else old(data[Cell(x, y)]))
    {
      for y := ty to ty + th
        invariant forall yy, xx :: 0 <= xx < Width && 0 <= yy < Height ==>
          data[Cell(xx, yy)] == (if InFloor(tx, ty, tw, th, xx, yy) && yy < y then Floor else old(data[Cell(xx, yy)]))
      {
        for x := tx to tx + tw
          invariant forall yy, xx :: 0 <= xx < Width && 0 <= yy < Height ==>
            data[Cell(xx, yy)] == (if InFloor(tx, ty, tw, th, xx, yy) && (yy < y || (yy == y && xx < x)) then Floor
                                   else old(data[Cell(xx, yy)]))
        {
          data[Cell(x, y)] := Floor;
        }
      }
    }

    /**
     * `paintCorridor`: every cell of the inclusive rectangle between the
     * corners holds 2, nothing else changes, and exactly the colliders whose
     * origin lies on the corridor are removed.
     */
    method PaintCorridor(x1: int, y1: int, x2: int, y2: int)
      requires Valid()
      requires 0 <= Min(x1, x2) && Max(x1, x2) < Width && 0 <= Min(y1, y2) && Max(y1, y2) < Height
      modifies this, data
      ensures Valid()
      ensures forall y, x :: 0 <= x < Width && 0 <= y < Height ==>
        data[Cell(x, y)] == (if InCorridor(x1, y1, x2, y2, x, y) then Floor else old(data[Cell(x, y)]))
      ensures collisions == CorridorKeeps(old(collisions), x1, y1, x2, y2)
      ensures zones == old(zones)
    {
      var minX, maxX, minY, maxY := Min(x1, x2), Max(x1, x2), Min(y1, y2), Max(y1, y2);
      ghost var start := collisions;
      FilterAll(start, c => !Cleared(c, minX, maxX, minY, minY, minX));
      for y := minY to maxY + 1
        invariant Valid()
        invariant forall yy, xx :: 0 <= xx < Width && 0 <= yy < Height ==>
          data[Cell(xx, yy)] == (if InCorridor(x1, y1, x2, y2, xx, yy) && yy < y then Floor else old(data[Cell(xx, yy)]))
        invariant collisions == Filter(start, c => !Cleared(c, minX, maxX, minY, y, minX))
        invariant zones == old(zones)
      {
        CorridorRow(start, minX, maxX, minY, y);
      }
      FilterExt(start, c => !Cleared(c, minX, maxX, minY, maxY + 1, minX), c => !OnCorridor(c, x1, y1, x2, y2));
    }

    /** One row of `paintCorridor`'s loops: tiles minX to maxX of row y become floor and lose their colliders. */
    method CorridorRow(ghost start: seq<Collider>, minX: int, maxX: int, minY: int, y: int)
      requires Valid() && 0 <= minX <= maxX < Width && 0 <= y < Height && minY <= y
      requires collisions == Filter(start, c => !Cleared(c, minX, maxX, minY, y, minX))
      modifies this, data
      ensures Valid()
      ensures forall yy, xx :: 0 <= xx < Width && 0 <= yy < Height ==>
        data[Cell(xx, yy)] == (if yy == y && minX <= xx <= maxX then Floor else old(data[Cell(xx, yy)]))
      ensures collisions == Filter(start, c => !Cleared(c, minX, maxX, minY, y + 1, minX))
      ensures zones == old(zones)
    {
      for x := minX to maxX + 1
        invariant Valid()
        invariant forall yy, xx :: 0 <= xx < Width && 0 <= yy < Height ==>
          data[Cell(xx, yy)] == (if yy == y && minX <= xx < x then Floor else old(data[Cell(xx, yy)]))
        invariant collisions == Filter(start, c => !Cleared(c, minX, maxX, minY, y, x))
        invariant zones == old(zones)
      {
        data[Cell(x, y)] := Floor;
        ClearCollision(x, y);
        ClearedStep(start, minX, maxX, minY, y, x);
      }
      FilterExt(start, c => !Cleared(c, minX, maxX, minY, y, maxX + 1), c => !Cleared(c, minX, maxX, minY, y + 1, minX));
    }

    /**
     * `addDoor`: for a known side, the door cell and the flat index after it
     * hold 2 and the colliders at tiles (dx, dy) and (dx + 1, dy) are removed;
     * the result is the door cell. An unknown side writes no array element
     * and removes no collider.
     */
    method AddDoor(rx: int, ry: int, rw: int, rh: int, side: string) returns (door: Option<(int, int)>)
      requires Valid()
      requires DoorCell(rx, ry, rw, rh, side).Some? ==>
        var (dx, dy) := DoorCell(rx, ry, rw, rh, side).value; 0 <= Cell(dx, dy) && Cell(dx, dy) + 1 < Width * Height
      modifies this, data
      ensures Valid()
      ensures door == DoorCell(rx, ry, rw, rh, side)
      ensures door.None? ==> collisions == old(collisions) && data[..] == old(data[..])
      ensures door.Some? ==>
        var (dx, dy) := door.value;
        && collisions == Without(Without(old(collisions), dx, dy), dx + 1, dy)
        && data[Cell(dx, dy)] == Floor && data[Cell(dx, dy) + 1] == Floor
        && forall i :: 0 <= i < data.Length && i != Cell(dx, dy) && i != Cell(dx, dy) + 1 ==> data[i] == old(data[i])
      ensures zones == old(zones)
    {
      door := DoorCell(rx, ry, rw, rh, side);
      if door.None? {
        return;
      }
      var (dx, dy) := door.value;
      data[Cell(dx, dy)] := Floor;
      ClearCollision(dx, dy);
      data[Cell(dx, dy) + 1] := Floor;
      ClearCollision(dx + 1, dy);
    }
  }

  /** Tiles of the corridor scan already visited: whole rows before `y`, and row `y` left of `x`. */
  predicate Cleared(c: Collider, minX: int, maxX: int, minY: int, y: int, x: int) {
    c.x % TileSize == 0 && c.y % TileSize == 0
    && var (cx, cy) := (c.x / TileSize, c.y / TileSize);
    && ((minY <= cy < y && minX <= cx <= maxX) || (cy == y && minX <= cx < x))
  }

  /** One corridor cell: clearing tile (x, y) extends the visited region by that tile. */
  lemma ClearedStep(start: seq<Collider>, minX: int, maxX: int, minY: int, y: int, x: int)
    requires minX <= x
    ensures Without(Filter(start, c => !Cleared(c, minX, maxX, minY, y, x)), x, y)
      == Filter(start, c => !Cleared(c, minX, maxX, minY, y, x + 1))
  {
    FilterTwice(start, c => !Cleared(c, minX, maxX, minY, y, x), c => !OriginAt(c, x, y),
      c => !Cleared(c, minX, maxX, minY, y, x + 1));
  }

  // Properties of the painter's operations.

  /** `clearCollision` removes exactly the colliders at tile (tx, ty) and keeps the others in their order. */
  lemma WithoutSpec(cs: seq<Collider>, tx: int, ty: int)
    ensures forall c :: c in Without(cs, tx, ty) ==> c in cs && !OriginAt(c, tx, ty)
    ensures forall c :: c in cs && !OriginAt(c, tx, ty) ==> c in Without(cs, tx, ty)
    ensures IsSubsequence(Without(cs, tx, ty), cs)
  {
    forall c | c in cs && !OriginAt(c, tx, ty) ensures c in Without(cs, tx, ty) {
      FilterKeeps(cs, c => !OriginAt(c, tx, ty), c);
    }
    FilterIsSubsequence(cs, c => !OriginAt(c, tx, ty));
  }

  /** The row loop pushes two colliders per x: the top wall and then the bottom wall. */
  lemma {:induction false} RowWallsShape(tx: int, ty: int, th: int, n: nat)
    ensures |RowWalls(tx, ty, th, n)| == 2 * n
    ensures forall k :: 0 <= k < n ==>
      RowWalls(tx, ty, th, n)[2 * k] == Wall(tx - 1 + k, ty - 1) && RowWalls(tx, ty, th, n)[2 * k + 1] == Wall(tx - 1 + k, ty + th)
  {
    if n > 0 {
      RowWallsShape(tx, ty, th, n - 1);
    }
  }

  /** The side loop pushes two colliders per y: the left wall and then the right wall. */
  lemma {:induction false} SideWallsShape(tx: int, ty: int, tw: int, n: nat)
    ensures |SideWalls(tx, ty, tw, n)| == 2 * n
    ensures forall k :: 0 <= k < n ==>
      SideWalls(tx, ty, tw, n)[2 * k] == Wall(tx - 1, ty + k) && SideWalls(tx, ty, tw, n)[2 * k + 1] == Wall(tx + tw, ty + k)
  {
    if n > 0 {
      SideWallsShape(tx, ty, tw, n - 1);
    }
  }

  /**
   * `paintRoom` appends 2·(tw + th + 2) colliders, no duplicate check: each
   * is the wall of a ring cell, and every ring cell has one.
   */
  lemma RoomWallsSpec(tx: int, ty: int, tw: nat, th: nat)
    ensures |RoomWalls(tx, ty, tw, th)| == 2 * (tw + th + 2)
    ensures forall c :: c in RoomWalls(tx, ty, tw, th) ==>
      exists x, y :: InRing(tx, ty, tw, th, x, y) && c == Wall(x, y)
    ensures forall x, y :: InRing(tx, ty, tw, th, x, y) ==> Wall(x, y) in RoomWalls(tx, ty, tw, th)
  {
    RowWallsShape(tx, ty, th, tw + 2);
    SideWallsShape(tx, ty, tw, th);
    RoomWallsSound(tx, ty, tw, th);
    RoomWallsComplete(tx, ty, tw, th);
  }

  /** Each collider `paintRoom` appends is the wall of a ring cell. */
  lemma RoomWallsSound(tx: int, ty: int, tw: nat, th: nat)
    ensures forall c :: c in RoomWalls(tx, ty, tw, th) ==>
      exists x, y :: InRing(tx, ty, tw, th, x, y) && c == Wall(x, y)
  {
    var rows, sides := RowWalls(tx, ty, th, tw + 2), SideWalls(tx, ty, tw, th);
    RowWallsShape(tx, ty, th, tw + 2);
    SideWallsShape(tx, ty, tw, th);
    var all := rows + sides;
    forall c | c in all ensures exists x, y :: InRing(tx, ty, tw, th, x, y) && c == Wall(x, y) {
      var i :| 0 <= i < |all| && all[i] == c;
      if i < |rows| {
        var k := i / 2;
        assert i == 2 * k || i == 2 * k + 1;
        assert InRing(tx, ty, tw, th, tx - 1 + k, ty - 1) && InRing(tx, ty, tw, th, tx - 1 + k, ty + th);
      } else {
        var k := (i - |rows|) / 2;
        assert i - |rows| == 2 * k || i - |rows| == 2 * k + 1;
        assert all[i] == sides[i - |rows|];
        assert InRing(tx, ty, tw, th, tx - 1, ty + k) && InRing(tx, ty, tw, th, tx + tw, ty + k);
      }
    }
  }

  /** Every ring cell gets its wall. */
  lemma RoomWallsComplete(tx: int, ty: int, tw: nat, th: nat)
    ensures forall x, y :: InRing(tx, ty, tw, th, x, y) ==> Wall(x, y) in RoomWalls(tx, ty, tw, th)
  {
    var rows, sides := RowWalls(tx, ty, th, tw + 2), SideWalls(tx, ty, tw, th);
    RowWallsShape(tx, ty, th, tw + 2);
    SideWallsShape(tx, ty, tw, th);
    var all := rows + sides;
    forall x, y | InRing(tx, ty, tw, th, x, y) ensures Wall(x, y) in all {
      if tx - 1 <= x <= tx + tw && (y == ty - 1 || y == ty + th) {
        var k := x - (tx - 1);
        assert rows[2 * k] == all[2 * k] && rows[2 * k + 1] == all[2 * k + 1];
      } else {
        var k := y - ty;
        assert sides[2 * k] == all[|rows| + 2 * k] && sides[2 * k + 1] == all[|rows| + 2 * k + 1];
      }
    }
  }

  /** The corridor is the inclusive rectangle between its corners, in whichever order they are given. */
  lemma CorridorOrderFree(x1: int, y1: int, x2: int, y2: int, x: int, y: int)
    ensures InCorridor(x1, y1, x2, y2, x, y) <==> (x1 <= x <= x2 || x2 <= x <= x1) && (y1 <= y <= y2 || y2 <= y <= y1)
    ensures InCorridor(x1, y1, x2, y2, x, y) == InCorridor(x2, y2, x1, y1, x, y)
  {
  }

  /**
   * After `paintCorridor` no collider has its origin on a corridor cell, every
   * other collider survives, and the survivors keep their order.
   */
  lemma CorridorKeepsSpec(cs: seq<Collider>, x1: int, y1: int, x2: int, y2: int)
    ensures forall c, x, y :: c in CorridorKeeps(cs, x1, y1, x2, y2) && InCorridor(x1, y1, x2, y2, x, y) ==> !OriginAt(c, x, y)
    ensures forall c :: c in cs && !OnCorridor(c, x1, y1, x2, y2) ==> c in CorridorKeeps(cs, x1, y1, x2, y2)
    ensures IsSubsequence(CorridorKeeps(cs, x1, y1, x2, y2), cs)
  {
    forall c, x, y | c in CorridorKeeps(cs, x1, y1, x2, y2) && InCorridor(x1, y1, x2, y2, x, y)
      ensures !OriginAt(c, x, y)
    {
      OriginAtTile(c, x, y);
    }
    forall c | c in cs && !OnCorridor(c, x1, y1, x2, y2) ensures c in CorridorKeeps(cs, x1, y1, x2, y2) {
      FilterKeeps(cs, c => !OnCorridor(c, x1, y1, x2, y2), c);
    }
    FilterIsSubsequence(cs, c => !OnCorridor(c, x1, y1, x2, y2));
  }

  /**
   * `paintCorridor` is idempotent: the second call removes no further
   * collider (and writes 2 where 2 already is).
   */
  lemma CorridorIdempotent(cs: seq<Collider>, x1: int, y1: int, x2: int, y2: int)
    ensures CorridorKeeps(CorridorKeeps(cs, x1, y1, x2, y2), x1, y1, x2, y2) == CorridorKeeps(cs, x1, y1, x2, y2)
  {
    FilterIdempotent(cs, c => !OnCorridor(c, x1, y1, x2, y2));
  }

  /**
   * For a room at least one cell wide and tall, every door cell lies on the
   * room's wall ring. On the bottom and top walls the second cell does too;
   * on the left it is the first floor cell, and on the right it is the cell
   * just outside the ring.
   */
  lemma DoorOnRing(rx: int, ry: int, rw: int, rh: int, side: string)
    requires rw >= 1 && rh >= 1
    requires DoorCell(rx, ry, rw, rh, side).Some?
    ensures var (dx, dy) := DoorCell(rx, ry, rw, rh, side).value;
      && InRing(rx, ry, rw, rh, dx, dy)
      && (side == "bottom" || side == "top" ==> InRing(rx, ry, rw, rh, dx + 1, dy))
      && (side == "left" ==> InFloor(rx, ry, rw, rh, dx + 1, dy))
      && (side == "right" ==> !InRing(rx, ry, rw, rh, dx + 1, dy) && !InFloor(rx, ry, rw, rh, dx + 1, dy))
  {
  }
}
