/**
 * src/shared/MapParser.ts: lookups over a parsed Tiled map (layers by name,
 * the objects of an object group, custom properties), the three parsers
 * built on them (seats, NPCs, the spawn point) and the navigation grid half
 * of `buildPhysics`, which marks every tile touched by a collision object.
 */
module MapParser {
  import opened Wrappers
  import opened Tiled
  import FixedSeats
  import Seqs

  // ------------------------------------------------------------- lookups

  /** `getLayer`: the first layer called `name`. */
  function GetLayer(m: TiledMap, name: string): (r: Option<Layer>)
    requires m.layers.Some?
    ensures r.Some? <==> exists j :: 0 <= j < |m.layers.value| && m.layers.value[j].name == name
    ensures r.Some? ==> r.value == m.layers.value[FindLayerIndex(m.layers.value, name)]
  {
    FindLayer(m.layers.value, name)
  }

  /** `getObjects`: the objects of the first layer called `layerName` when it is an object group that has them, else none. */
  function GetObjects(m: TiledMap, layerName: string): (objs: seq<MapObject>)
    requires m.layers.Some?
  {
    var layer := GetLayer(m, layerName);
    if layer.Some? && layer.value.kind == "objectgroup" && layer.value.objects.Some? then layer.value.objects.value else []
  }

  /** `getObjects` is not empty only through the first layer of that name, an object group with objects. */
  lemma GetObjectsSpec(m: TiledMap, layerName: string)
    requires m.layers.Some?
    ensures GetObjects(m, layerName) != [] ==>
      var k := FindLayerIndex(m.layers.value, layerName);
      && k < |m.layers.value|
      && m.layers.value[k].kind == "objectgroup"
      && m.layers.value[k].objects == Some(GetObjects(m, layerName))
    ensures (forall j :: 0 <= j < |m.layers.value| ==> m.layers.value[j].name != layerName) ==> GetObjects(m, layerName) == []
  {
  }

  /** Position of the first property called `name`, or the count if there is none. */
  function FindProperty(props: seq<Property>, name: string): (k: nat)
    ensures k <= |props|
    ensures k < |props| ==> props[k].name == name
    ensures forall j :: 0 <= j < k ==> props[j].name != name
  {
    Seqs.FirstWhere(props, (q: Property) => q.name == name)
  }

  /** `getProperty`: the value of the object's first property called `name`; `None` is `undefined`. */
  function GetProperty(o: MapObject, name: string): (r: Option<Value>)
    ensures r.None? <==> o.properties.None? || forall j :: 0 <= j < |o.properties.value| ==> o.properties.value[j].name != name
    ensures r.Some? ==> exists j :: (0 <= j < |o.properties.value|
      && o.properties.value[j] == Property(name, r.value)
      && forall i :: 0 <= i < j ==> o.properties.value[i].name != name)
  {
    if o.properties.None? then None
    else
      var k := FindProperty(o.properties.value, name);
      if k < |o.properties.value| then Some(o.properties.value[k].value) else None
  }

  // ------------------------------------------------------------- seats

  /** A seat position: the object's raw top-left corner. */
  datatype Pos = Pos(x: int, y: int)

  /** The three seat tables of `parseSeats` (`bed`, `class`, `food`), each keyed by the `studentId` property value. */
  datatype Seats = Seats(bed: map<Value, Pos>, classroom: map<Value, Pos>, food: map<Value, Pos>)

  /** The table of kind `kind` after the `forEach` has visited the first `n` objects. */
  function SeatTable(objs: seq<MapObject>, kind: string, n: nat): map<Value, Pos>
    requires n <= |objs|
  {
    if n == 0 then map[]
    else
      var table := SeatTable(objs, kind, n - 1);
      var o := objs[n - 1];
      var id := GetProperty(o, "studentId");
      if id.Some? && o.kind == Some(kind) then table[id.value := Pos(o.x, o.y)] else table
  }

  /** One step of `parseSeats`' `forEach`: the object is filed by its type, or ignored. */
  method FileSeat(seats: Seats, o: MapObject) returns (next: Seats)
    ensures var id := GetProperty(o, "studentId");
      next == if id.None? then seats
        else if o.kind == Some("bed") then seats.(bed := seats.bed[id.value := Pos(o.x, o.y)])
        else if o.kind == Some("seat_class") then seats.(classroom := seats.classroom[id.value := Pos(o.x, o.y)])
        else if o.kind == Some("seat_food") then seats.(food := seats.food[id.value := Pos(o.x, o.y)])
        else seats
  {
    var studentId := GetProperty(o, "studentId");
    if studentId.None? {
      return seats;
    }
    var pos := Pos(o.x, o.y);
    if o.kind == Some("bed") {
      next := seats.(bed := seats.bed[studentId.value := pos]);
    } else if o.kind == Some("seat_class") {
      next := seats.(classroom := seats.classroom[studentId.value := pos]);
    } else if o.kind == Some("seat_food") {
      next := seats.(food := seats.food[studentId.value := pos]);
    } else {
      next := seats;
    }
  }

  /** `parseSeats`: the FixedSeats objects filed into the bed, class and food tables in order. */
  method ParseSeats(m: TiledMap) returns (seats: Seats)
    requires m.layers.Some?
    ensures var objs := GetObjects(m, "FixedSeats");
      seats == Seats(SeatTable(objs, "bed", |objs|), SeatTable(objs, "seat_class", |objs|), SeatTable(objs, "seat_food", |objs|))
  {
    var objects := GetObjects(m, "FixedSeats");
    seats := Seats(map[], map[], map[]);
    for i := 0 to |objects|
      invariant seats == Seats(SeatTable(objects, "bed", i), SeatTable(objects, "seat_class", i), SeatTable(objects, "seat_food", i))
    {
      seats := FileSeat(seats, objects[i]);
    }
  }

  /** A table holds a student exactly when some object of that kind carries that `studentId`. */
  lemma {:induction false} SeatTableKeys(objs: seq<MapObject>, kind: string, n: nat, id: Value)
    requires n <= |objs|
    ensures id in SeatTable(objs, kind, n) <==>
      exists j :: 0 <= j < n && objs[j].kind == Some(kind) && GetProperty(objs[j], "studentId") == Some(id)
  {
    if n > 0 {
      SeatTableKeys(objs, kind, n - 1, id);
    }
  }

  /** A later object with the same kind and `studentId` overwrites: the table holds the last one's position. */
  lemma {:induction false} SeatTableLastWins(objs: seq<MapObject>, kind: string, n: nat, j: nat, id: Value)
    requires j < n <= |objs|
    requires objs[j].kind == Some(kind) && GetProperty(objs[j], "studentId") == Some(id)
    requires forall k :: j < k < n && objs[k].kind == Some(kind) ==> GetProperty(objs[k], "studentId") != Some(id)
    ensures id in SeatTable(objs, kind, n) && SeatTable(objs, kind, n)[id] == Pos(objs[j].x, objs[j].y)
  {
    if j < n - 1 {
      SeatTableLastWins(objs, kind, n - 1, j, id);
    }
  }

  /**
   * Reading back what the seat patch writes: on a patched map the bed of
   * student s is the marker generated for slot s mod 8 of house s div 8.
   */
  lemma PatchedBeds(seatLayer: Layer, rest: seq<Layer>, m: TiledMap, s: nat)
    requires seatLayer == FixedSeats.SeatLayer(seq(72, k requires 0 <= k < 72 => FixedSeats.SeatAt(k)))
    requires m.layers == Some([seatLayer] + rest) && s < 24
    ensures var table := SeatTable(GetObjects(m, "FixedSeats"), "bed", 72);
      && Int(s) in table
      && table[Int(s)] == Pos(FixedSeats.Bed(s / 8, s % 8).x, FixedSeats.Bed(s / 8, s % 8).y)
  {
    var objs := GetObjects(m, "FixedSeats");
    assert FindLayerIndex(m.layers.value, "FixedSeats") == 0;
    assert objs == seq(72, k requires 0 <= k < 72 => FixedSeats.SeatAt(k));
    FixedSeats.SeatIdsAndKinds(s);
    FixedSeats.BedPlacement(s / 8, s % 8);
    forall k | s < k < 72 && objs[k].kind == Some("bed")
      ensures GetProperty(objs[k], "studentId") != Some(Int(s))
    {
      FixedSeats.SeatIdsAndKinds(k);
      FixedSeats.BedPlacement(k / 8, k % 8);
    }
    SeatTableLastWins(objs, "bed", 72, s, Int(s));
  }

  // ------------------------------------------------------------- NPCs and spawn

  /** One entry of `parseNPCs`: `kind` and `skin` are the JavaScript `||` chains, so they may be any property value. */
  datatype Npc = Npc(id: int, x: int, y: int, name: string, kind: Value, skin: Value)

  /** `a || b` on an optional property value: `a` when it is defined and truthy. */
  function OrElse(a: Option<Value>, b: Value): (r: Value)
    ensures a.Some? && Truthy(a.value) ==> r == a.value
    ensures !(a.Some? && Truthy(a.value)) ==> r == b
  {
    if a.Some? && Truthy(a.value) then a.value else b
  }

  /** The NPC built from one object. */
  function NpcOf(o: MapObject): Npc {
    Npc(o.id, o.x, o.y,
      if o.name.Some? && o.name.value != "" then o.name.value else "Unknown",
      if o.kind.Some? && o.kind.value != "" then Str(o.kind.value) else OrElse(GetProperty(o, "type"), Str("teacher")),
      OrElse(GetProperty(o, "skin"), Str("teacher")))
  }

  /** `parseNPCs`: one NPC per object of the NPCs layer, in order. */
  function ParseNpcs(m: TiledMap): (npcs: seq<Npc>)
    requires m.layers.Some?
    ensures |npcs| == |GetObjects(m, "NPCs")|
    ensures forall k :: 0 <= k < |npcs| ==> npcs[k] == NpcOf(GetObjects(m, "NPCs")[k])
  {
    var objs := GetObjects(m, "NPCs");
    seq(|objs|, k requires 0 <= k < |objs| => NpcOf(objs[k]))
  }

  /** The defaults: a nameless object is "Unknown", and type and skin fall back to "teacher". */
  lemma NpcDefaults(o: MapObject)
    ensures NpcOf(o).id == o.id && NpcOf(o).x == o.x && NpcOf(o).y == o.y
    ensures (o.name == None || o.name == Some("")) ==> NpcOf(o).name == "Unknown"
    ensures o.properties == None && (o.kind == None || o.kind == Some("")) ==> NpcOf(o).kind == Str("teacher")
    ensures o.properties == None ==> NpcOf(o).skin == Str("teacher")
    ensures o.kind.Some? && o.kind.value != "" ==> NpcOf(o).kind == Str(o.kind.value)
  {
  }

  /** The object is named or typed "Spawn". */
  predicate IsSpawn(o: MapObject) {
    o.name == Some("Spawn") || o.kind == Some("Spawn")
  }

  /** Position of the first spawn object, or the count if there is none. */
  function FindSpawn(objs: seq<MapObject>): (k: nat)
    ensures k <= |objs|
    ensures k < |objs| ==> IsSpawn(objs[k])
    ensures forall j :: 0 <= j < k ==> !IsSpawn(objs[j])
  {
    if |objs| == 0 then 0
    else if IsSpawn(objs[0]) then 0
    else 1 + FindSpawn(objs[1..])
  }

  /** `parseEntities`: the corner of the first Entities object named or typed "Spawn", else (256, 256). */
  function ParseEntities(m: TiledMap): (spawnPos: Pos)
    requires m.layers.Some?
  {
    var objs := GetObjects(m, "Entities");
    var k := FindSpawn(objs);
    if k < |objs| then Pos(objs[k].x, objs[k].y) else Pos(256, 256)
  }

  /** The spawn point is the first spawn object's corner, and (256, 256) exactly when there is none. */
  lemma ParseEntitiesSpec(m: TiledMap)
    requires m.layers.Some?
    ensures var objs := GetObjects(m, "Entities");
      && ((forall j :: 0 <= j < |objs| ==> !IsSpawn(objs[j])) ==> ParseEntities(m) == Pos(256, 256))
      && (forall j :: 0 <= j < |objs| && IsSpawn(objs[j]) && (forall i :: 0 <= i < j ==> !IsSpawn(objs[i])) ==>
            ParseEntities(m) == Pos(objs[j].x, objs[j].y))
  {
    var objs := GetObjects(m, "Entities");
    var k := FindSpawn(objs);
    forall j | 0 <= j < |objs| && IsSpawn(objs[j]) && (forall i :: 0 <= i < j ==> !IsSpawn(objs[i]))
      ensures k == j
    {
    }
  }

  // ------------------------------------------------------------- navigation grid

  /** `Math.floor(a / b)` for positive `b`: Dafny's division already rounds down then. */
  function FloorDiv(a: int, b: int): (q: int)
    requires b > 0
    ensures q * b <= a < (q + 1) * b
  {
    a / b
  }

  /** `Math.ceil(a / b)` for positive `b`. */
  function CeilDiv(a: int, b: int): (q: int)
    requires b > 0
    ensures (q - 1) * b < a <= q * b
  {
    -((-a) / b)
  }

  /** `x || 32` for a tile size. */
  function TileOr32(t: nat): (r: nat)
    ensures r > 0
    ensures t > 0 ==> r == t
  {
    if t == 0 then 32 else t
  }

  /** Tile (x, y) lies in the object's blocked range `[⌊x/tw⌋, ⌈(x+w)/tw⌉) × [⌊y/th⌋, ⌈(y+h)/th⌉)`. */
  predicate Covers(o: MapObject, tw: int, th: int, x: int, y: int)
    requires tw > 0 && th > 0
  {
    FloorDiv(o.x, tw) <= x < CeilDiv(o.x + o.width, tw)
    && FloorDiv(o.y, th) <= y < CeilDiv(o.y + o.height, th)
  }

  /** An index is in the floor/ceil range exactly when its tile's span overlaps `[a, a + w)` with positive length. */
  lemma CoversSpan(a: int, w: int, t: int, x: int)
    requires t > 0
    ensures FloorDiv(a, t) <= x < CeilDiv(a + w, t) <==> a < (x + 1) * t && x * t < a + w
  {
    var lo, hi := FloorDiv(a, t), CeilDiv(a + w, t);
    if lo <= x {
      Mono(lo + 1, x + 1, t);
    } else {
      Mono(x + 1, lo, t);
    }
    if x < hi {
      Mono(x, hi - 1, t);
    } else {
      Mono(hi, x, t);
    }
  }

  /** Multiplication by a positive number is monotone. */
  lemma Mono(a: int, b: int, t: int)
    requires t > 0 && a <= b
    ensures a * t <= b * t
  {
    assert b * t == a * t + (b - a) * t;
  }

  /** A tile is covered exactly when it overlaps the object's rectangle in a region of positive area. */
  lemma CoversIffOverlap(o: MapObject, tw: int, th: int, x: int, y: int)
    requires tw > 0 && th > 0
    ensures Covers(o, tw, th, x, y) <==>
      (o.x < (x + 1) * tw && x * tw < o.x + o.width && o.y < (y + 1) * th && y * th < o.y + o.height)
  {
    CoversSpan(o.x, o.width, tw, x);
    CoversSpan(o.y, o.height, th, y);
  }

  /** Some of the first `n` objects covers tile (x, y). */
  predicate Blocked(objs: seq<MapObject>, n: nat, tw: int, th: int, x: int, y: int)
    requires n <= |objs| && tw > 0 && th > 0
  {
    n > 0 && (Covers(objs[n - 1], tw, th, x, y) || Blocked(objs, n - 1, tw, th, x, y))
  }

  /** `Blocked` is the existential it stands for. */
  lemma {:induction false} BlockedIff(objs: seq<MapObject>, n: nat, tw: int, th: int, x: int, y: int)
    requires n <= |objs| && tw > 0 && th > 0
    ensures Blocked(objs, n, tw, th, x, y) <==> exists k :: 0 <= k < n && Covers(objs[k], tw, th, x, y)
  {
    if n > 0 {
      BlockedIff(objs, n - 1, tw, th, x, y);
    }
  }

  /** The inner loop: cells x0..x1−1 of row y are set to 1, the rest of the grid is kept. */
  method MarkRow(grid: array2<int>, y: nat, x0: nat, x1: nat)
    requires y < grid.Length0 && x1 <= grid.Length1
    modifies grid
    ensures forall yy, xx :: 0 <= yy < grid.Length0 && 0 <= xx < grid.Length1 ==>
      grid[yy, xx] == if yy == y && x0 <= xx < x1 then 1 else old(grid[yy, xx])
  {
    var x := x0;
    while x < x1
      invariant x0 <= x || x == x0
      invariant forall yy, xx :: 0 <= yy < grid.Length0 && 0 <= xx < grid.Length1 ==>
        grid[yy, xx] == if yy == y && x0 <= xx < x && xx < x1 then 1 else old(grid[yy, xx])
      decreases x1 - x
    {
      grid[y, x] := 1;
      x := x + 1;
    }
  }

  /** The two clipped loops for one collision object: its covered cells become 1, the others are kept. */
  method MarkObject(grid: array2<int>, o: MapObject, tw: int, th: int)
    requires tw > 0 && th > 0
    modifies grid
    ensures forall yy, xx :: 0 <= yy < grid.Length0 && 0 <= xx < grid.Length1 ==>
      grid[yy, xx] == if Covers(o, tw, th, xx, yy) then 1 else old(grid[yy, xx])
  {
    var mapW, mapH := grid.Length1, grid.Length0;
    var startX, startY := FloorDiv(o.x, tw), FloorDiv(o.y, th);
    var endX, endY := CeilDiv(o.x + o.width, tw), CeilDiv(o.y + o.height, th);
    var x0: nat := if startX < 0 then 0 else startX;
    var x1: nat := if mapW < endX then mapW else if endX < 0 then 0 else endX;
    var y := if startY < 0 then 0 else startY;
    var y1 := if mapH < endY then mapH else endY;
    while y < y1
      invariant (startY < 0 ==> y >= 0) && (startY >= 0 ==> y >= startY)
      invariant forall yy, xx :: 0 <= yy < grid.Length0 && 0 <= xx < grid.Length1 ==>
        grid[yy, xx] == if Covers(o, tw, th, xx, yy) && yy < y then 1 else old(grid[yy, xx])
      decreases y1 - y
    {
      MarkRow(grid, y, x0, x1);
      y := y + 1;
    }
  }

  /** The result of `buildPhysics` apart from the physics bodies. */
  datatype Dims = Dims(gridWidth: nat, gridHeight: nat, tileWidth: nat, tileHeight: nat)

  /**
   * The navGrid half of `buildPhysics`: a map without a layers array gives an
   * empty grid and all-zero sizes; otherwise the grid is height × width, and
   * a cell is 1 exactly when some collision object covers it.
   */
  method BuildNavGrid(m: TiledMap) returns (navGrid: array2<int>, dims: Dims)
    ensures m.layers.None? ==> navGrid.Length0 == 0 && navGrid.Length1 == 0 && dims == Dims(0, 0, 0, 0)
    ensures m.layers.Some? ==>
      var objs := GetObjects(m, "Collisions");
      && dims == Dims(m.width, m.height, TileOr32(m.tilewidth), TileOr32(m.tileheight))
      && navGrid.Length0 == m.height && navGrid.Length1 == m.width
      && forall y, x :: 0 <= y < navGrid.Length0 && 0 <= x < navGrid.Length1 ==>
        navGrid[y, x] == if Blocked(objs, |objs|, dims.tileWidth, dims.tileHeight, x, y) then 1 else 0
  {
    if m.layers.None? {
      navGrid := new int[0, 0];
      return navGrid, Dims(0, 0, 0, 0);
    }
    var mapW, mapH := m.width, m.height;
    var tileW, tileH := TileOr32(m.tilewidth), TileOr32(m.tileheight);
    navGrid := new int[mapH, mapW]((y, x) => 0);
    var collisionObjects := GetObjects(m, "Collisions");
    for i := 0 to |collisionObjects|
      invariant navGrid.Length0 == mapH && navGrid.Length1 == mapW
      invariant forall y, x :: 0 <= y < mapH && 0 <= x < mapW ==>
        navGrid[y, x] == if Blocked(collisionObjects, i, tileW, tileH, x, y) then 1 else 0
    {
      MarkObject(navGrid, collisionObjects[i], tileW, tileH);
    }
    dims := Dims(mapW, mapH, tileW, tileH);
  }

  /** A navGrid entry is 1 exactly at the cells that some collision object's rectangle overlaps. */
  lemma NavGridMeaning(objs: seq<MapObject>, tw: int, th: int, x: int, y: int)
    requires tw > 0 && th > 0
    ensures Blocked(objs, |objs|, tw, th, x, y) <==> exists k :: (0 <= k < |objs|
      && objs[k].x < (x + 1) * tw && x * tw < objs[k].x + objs[k].width
      && objs[k].y < (y + 1) * th && y * th < objs[k].y + objs[k].height)
  {
    BlockedIff(objs, |objs|, tw, th, x, y);
    forall k | 0 <= k < |objs|
      ensures Covers(objs[k], tw, th, x, y) <==>
        (objs[k].x < (x + 1) * tw && x * tw < objs[k].x + objs[k].width
        && objs[k].y < (y + 1) * th && y * th < objs[k].y + objs[k].height)
    {
      CoversIffOverlap(objs[k], tw, th, x, y);
    }
  }
}
