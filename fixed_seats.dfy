/**
 * tools/patch_fixed_seats.js: generates the 72 seat markers (24 beds, 24
 * classroom seats, 24 great-hall seats) with ids from 2000 and inserts them
 * as a new first layer "FixedSeats".
 */
module FixedSeats {
  import opened Wrappers
  import opened Strings
  import opened Tiled
  import Pixels

  const FirstId: int := 2000
  const TileSize: int := 32

  /** Houses in the order of the bed loop. */
  const BedHouses: seq<string> := ["ignis", "axiom", "vesper"]
  /** Houses in the order of the great-hall loop. */
  const FoodHouses: seq<string> := ["ignis", "vesper", "axiom"]

  /** The dormitory anchor of each house of `BedHouses`. */
  function DormX(h: nat): int { 576 }
  function DormY(h: nat): int { if h == 0 then 480 else if h == 1 then 1120 else 1760 }

  /** The great-hall row offset of a house: ignis above, vesper below, axiom on the centre line. */
  function FoodOffset(house: string): int {
    if house == "ignis" then -64 else if house == "vesper" then 64 else 0
  }

  /** A 32×32 marker. */
  function Marker(id: int, name: string, kind: string, x: int, y: int, props: seq<Property>): MapObject {
    MapObject(id, Some(name), Some(kind), x, y, 32, 32, Some(props))
  }

  /** The bed of slot i of house h: `(i − 3.5)·64` from the dormitory anchor is `64·i − 224`. */
  function Bed(h: nat, i: nat): MapObject
    requires h < 3
  {
    var student := i + h * 8;
    Marker(FirstId + student, "bed_" + NatToString(student), "bed",
      DormX(h) + 64 * i - 224, DormY(h),
      [Property("studentId", Int(student)), Property("house", Str(BedHouses[h]))])
  }

  /** Classroom seat i: row i div 8, table (i mod 8) div 2, side i mod 2. */
  function ClassSeat(i: nat): MapObject {
    var row, col, side := i / 8, (i % 8) / 2, i % 2;
    Marker(FirstId + 24 + i, "seat_class_" + NatToString(i), "seat_class",
      1440 + col * 96 + 16 + side * 32, 1312 + row * 64 + 40,
      [Property("studentId", Int(i))])
  }

  /** Great-hall seat of slot i of house h of `FoodHouses`: `(i − 3.5)·32` from the hall anchor is `32·i − 112`. */
  function FoodSeat(h: nat, i: nat): MapObject
    requires h < 3
  {
    var student := i + h * 8;
    Marker(FirstId + 48 + student, "seat_food_" + NatToString(student), "seat_food",
      1600 + 32 * i - 112, 560 + FoodOffset(FoodHouses[h]),
      [Property("studentId", Int(student)), Property("house", Str(FoodHouses[h]))])
  }

  /** The k-th generated marker. */
  function SeatAt(k: nat): MapObject
    requires k < 72
  {
    if k < 24 then Bed(k / 8, k % 8)
    else if k < 48 then ClassSeat(k - 24)
    else FoodSeat((k - 48) / 8, (k - 48) % 8)
  }

  /** The three generation loops, pushing markers with an incrementing id counter. */
  method GenerateSeats() returns (objects: seq<MapObject>)
    ensures |objects| == 72
    ensures forall k :: 0 <= k < 72 ==> objects[k] == SeatAt(k)
  {
    var objId;
    objects, objId := PushBeds([], FirstId);
    objects, objId := PushClassSeats(objects, objId);
    objects, objId := PushFoodSeats(objects, objId);
  }

  /** The dormitory loop: eight beds for each house of `BedHouses`. */
  method PushBeds(prior: seq<MapObject>, firstId: int) returns (objects: seq<MapObject>, objId: int)
    requires |prior| == 0 && firstId == FirstId
    ensures |objects| == 24 && objId == FirstId + 24
    ensures forall k :: 0 <= k < 24 ==> objects[k] == SeatAt(k)
  {
    objects, objId := prior, firstId;
    for h := 0 to 3
      invariant |objects| == 8 * h && objId == FirstId + |objects|
      invariant forall k :: 0 <= k < |objects| ==> objects[k] == SeatAt(k)
    {
      var house := BedHouses[h];
      for i := 0 to 8
        invariant |objects| == 8 * h + i && objId == FirstId + |objects|
        invariant forall k :: 0 <= k < |objects| ==> objects[k] == SeatAt(k)
      {
        var studentIdx := i + h * 8;
        Pixels.DivUnique(studentIdx, 8, h, i);
        objects := objects + [Marker(objId, "bed_" + NatToString(studentIdx), "bed",
          DormX(h) + 64 * i - 224, DormY(h),
          [Property("studentId", Int(studentIdx)), Property("house", Str(house))])];
        objId := objId + 1;
      }
    }
  }

  /** The classroom loop: 24 seats, two per table. */
  method PushClassSeats(prior: seq<MapObject>, firstId: int) returns (objects: seq<MapObject>, objId: int)
    requires |prior| == 24 && firstId == FirstId + 24
    requires forall k :: 0 <= k < 24 ==> prior[k] == SeatAt(k)
    ensures |objects| == 48 && objId == FirstId + 48
    ensures forall k :: 0 <= k < 48 ==> objects[k] == SeatAt(k)
  {
    objects, objId := prior, firstId;
    for i := 0 to 24
      invariant |objects| == 24 + i && objId == FirstId + |objects|
      invariant forall k :: 0 <= k < |objects| ==> objects[k] == SeatAt(k)
    {
      var seatRow := i / 8;
      var seatCol := (i % 8) / 2;
      var seatSide := i % 2;
      var tableX := 1440 + seatCol * 96;
      var tableY := 1312 + seatRow * 64;
      objects := objects + [Marker(objId, "seat_class_" + NatToString(i), "seat_class",
        tableX + 16 + seatSide * 32, tableY + 40, [Property("studentId", Int(i))])];
      objId := objId + 1;
    }
  }

  /** The great-hall loop: eight seats for each house of `FoodHouses`. */
  method PushFoodSeats(prior: seq<MapObject>, firstId: int) returns (objects: seq<MapObject>, objId: int)
    requires |prior| == 48 && firstId == FirstId + 48
    requires forall k :: 0 <= k < 48 ==> prior[k] == SeatAt(k)
    ensures |objects| == 72 && objId == FirstId + 72
    ensures forall k :: 0 <= k < 72 ==> objects[k] == SeatAt(k)
  {
    objects, objId := prior, firstId;
    for h := 0 to 3
      invariant |objects| == 48 + 8 * h && objId == FirstId + |objects|
      invariant forall k :: 0 <= k < |objects| ==> objects[k] == SeatAt(k)
    {
      var house := FoodHouses[h];
      var yOffset := if house == "ignis" then -64 else if house == "vesper" then 64 else 0;
      for i := 0 to 8
        invariant |objects| == 48 + 8 * h + i && objId == FirstId + |objects|
        invariant forall k :: 0 <= k < |objects| ==> objects[k] == SeatAt(k)
      {
        var studentIdx := i + h * 8;
        Pixels.DivUnique(studentIdx, 8, h, i);
        objects := objects + [Marker(objId, "seat_food_" + NatToString(studentIdx), "seat_food",
          1600 + 32 * i - 112, 560 + yOffset,
          [Property("studentId", Int(studentIdx)), Property("house", Str(house))])];
        objId := objId + 1;
      }
    }
  }

  /** The inserted object group. */
  function SeatLayer(objects: seq<MapObject>): Layer {
    Layer("FixedSeats", "objectgroup", Some(objects), None, 0, 0)
  }

  /**
   * The script: the new layer goes in front of the existing ones, which keep
   * their order. A map without a layers array makes `unshift` throw.
   */
  method PatchFixedSeats(m: TiledMap) returns (r: Result<TiledMap>)
    ensures m.layers.None? ==> r.Err?
    ensures m.layers.Some? ==> (
      && r.Ok? && r.value.layers.Some?
      && |r.value.layers.value| == |m.layers.value| + 1
      && r.value.layers.value[1..] == m.layers.value
      && r.value.layers.value[0].name == "FixedSeats" && r.value.layers.value[0].kind == "objectgroup"
      && r.value.layers.value[0].objects.Some?
      && |r.value.layers.value[0].objects.value| == 72
      && (forall k :: 0 <= k < 72 ==> r.value.layers.value[0].objects.value[k] == SeatAt(k))
      && r.value == m.(layers := r.value.layers))
  {
    var objects := GenerateSeats();
    if m.layers.None? {
      return Err("Cannot read properties of undefined (reading 'unshift')");
    }
    r := Ok(m.(layers := Some([SeatLayer(objects)] + m.layers.value)));
  }

  // Properties of the generated markers.

  /** The student id recorded in a marker, if any. */
  function StudentId(o: MapObject): Option<int> {
    if o.properties.Some? && |o.properties.value| > 0 && o.properties.value[0].name == "studentId"
       && o.properties.value[0].value.Int?
    then Some(o.properties.value[0].value.i) else None
  }

  /** Ids run 2000..2071 in order: beds first, then class seats, then food seats. */
  lemma SeatIdsAndKinds(k: nat)
    requires k < 72
    ensures SeatAt(k).id == 2000 + k
    ensures SeatAt(k).kind == Some(if k < 24 then "bed" else if k < 48 then "seat_class" else "seat_food")
  {
    if k < 24 {
      Pixels.DivUnique(k, 8, k / 8, k % 8);
    } else if k >= 48 {
      Pixels.DivUnique(k - 48, 8, (k - 48) / 8, (k - 48) % 8);
    }
  }

  /** The bed of house index h and slot i has student 8h + i and sits 64·i − 224 from its dormitory anchor. */
  lemma BedPlacement(h: nat, i: nat)
    requires h < 3 && i < 8
    ensures SeatAt(8 * h + i) == Bed(h, i)
    ensures StudentId(Bed(h, i)) == Some(8 * h + i)
    ensures Bed(h, i).x == DormX(h) + 64 * i - 224 && Bed(h, i).y == DormY(h)
  {
    Pixels.DivUnique(8 * h + i, 8, h, i);
  }

  /** Classroom seat i sits at (1440 + 96·col + 16 + 32·side, 1312 + 64·row + 40) and belongs to student i. */
  lemma ClassPlacement(i: nat)
    requires i < 24
    ensures SeatAt(24 + i) == ClassSeat(i) && StudentId(ClassSeat(i)) == Some(i)
    ensures ClassSeat(i).x == 1440 + 96 * ((i % 8) / 2) + 16 + 32 * (i % 2)
    ensures ClassSeat(i).y == 1312 + 64 * (i / 8) + 40
  {
  }

  /** Great-hall seats: ignis at −64, vesper at +64 and axiom at 0, x = 1600 + 32·i − 112. */
  lemma FoodPlacement(h: nat, i: nat)
    requires h < 3 && i < 8
    ensures SeatAt(48 + 8 * h + i) == FoodSeat(h, i)
    ensures FoodSeat(h, i).x == 1600 + 32 * i - 112
    ensures FoodSeat(h, i).y == 560 + (if h == 0 then -64 else if h == 1 then 64 else 0)
  {
    Pixels.DivUnique(8 * h + i, 8, h, i);
  }

  /** Within each seat type every student id 0..23 occurs exactly once. */
  lemma StudentsOncePerKind(base: nat, s: nat)
    requires base in {0, 24, 48} && s < 24
    ensures exists k :: base <= k < base + 24 && StudentId(SeatAt(k)) == Some(s)
    ensures forall k1, k2 :: base <= k1 < k2 < base + 24 ==> StudentId(SeatAt(k1)) != StudentId(SeatAt(k2))
  {
    forall k | base <= k < base + 24 ensures StudentId(SeatAt(k)) == Some(k - base) {
      var j := k - base;
      Pixels.DivUnique(j, 8, j / 8, j % 8);
      assert k < 24 ==> k == j;
    }
    assert StudentId(SeatAt(base + s)) == Some(s);
  }
}
