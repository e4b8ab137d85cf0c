/**
 * tools/patch_collisions.js: for every Furniture tile equal to the table
 * gid 4, a 64×16 "Table_Col" collider is appended to the Collisions layer at
 * the tile's pixel position, with ids taken from the map's `nextobjectid`.
 */
module PatchCollisions {
  import opened Wrappers
  import opened Tiled

  const TableGid: int := 4

  /** The collider of the table at flat index i. */
  function TableCollider(id: int, i: nat, width: nat, tileWidth: nat, tileHeight: nat): MapObject
    requires width > 0
  {
    MapObject(id, Some("Table_Col"), Some("Wall"), (i % width) * tileWidth, (i / width) * tileHeight, 64, 16, None)
  }

  /** One collider per hit, in index order, with consecutive ids from `firstId`. */
  function CollidersFor(hits: seq<nat>, firstId: int, width: nat, tileWidth: nat, tileHeight: nat): (r: seq<MapObject>)
    requires width > 0
    ensures |r| == |hits|
    ensures forall j :: 0 <= j < |hits| ==> r[j] == TableCollider(firstId + j, hits[j], width, tileWidth, tileHeight)
  {
    seq(|hits|, j requires 0 <= j < |hits| => TableCollider(firstId + j, hits[j], width, tileWidth, tileHeight))
  }

  /** The scan loop: colliders for the table tiles in index order, and the advanced id counter. */
  method ScanFurniture(data: seq<int>, width: nat, tileWidth: nat, tileHeight: nat, firstId: int)
    returns (added: seq<MapObject>, nextId: int)
    requires width > 0
    ensures added == CollidersFor(Hits(data, TableGid, |data|), firstId, width, tileWidth, tileHeight)
    ensures nextId == firstId + |added|
  {
    added := [];
    nextId := firstId;
    var addedCount := 0;
    for i := 0 to |data|
      invariant added == CollidersFor(Hits(data, TableGid, i), firstId, width, tileWidth, tileHeight)
      invariant nextId == firstId + |added| && addedCount == |added|
    {
      if data[i] == TableGid {
        var xIndex := i % width;
        var yIndex := i / width;
        var xPixel := xIndex * tileWidth;
        var yPixel := yIndex * tileHeight;
        added := added + [MapObject(nextId, Some("Table_Col"), Some("Wall"), xPixel, yPixel, 64, 16, None)];
        nextId := nextId + 1;
        addedCount := addedCount + 1;
      }
    }
  }

  /**
   * The script. A missing Furniture or Collisions layer ends it with status 1
   * and nothing written; so does a Furniture layer without `data`, or a
   * table to append to a Collisions layer without `objects`, where the
   * source throws. Otherwise the colliders are appended to the first
   * Collisions layer and `nextobjectid` advances by their number.
   */
  method PatchCollisions(m: TiledMap) returns (r: Result<TiledMap>)
    requires m.width > 0
    ensures m.layers.None? ==> r.Err?
    ensures m.layers.Some? ==>
      var ls := m.layers.value;
      var f, c := FindLayerIndex(ls, "Furniture"), FindLayerIndex(ls, "Collisions");
      if f == |ls| || c == |ls| || ls[f].data.None? then r.Err?
      else
        var hits := Hits(ls[f].data.value, TableGid, |ls[f].data.value|);
        if ls[c].objects.None? && |hits| > 0 then r.Err?
        else
          var added := CollidersFor(hits, m.nextobjectid, m.width, m.tilewidth, m.tileheight);
          var prior := ls[c].objects.GetOr([]);
          && r.Ok?
          && r.value == m.(layers := Some(ls[c := ls[c].(objects := if |hits| == 0 then ls[c].objects else Some(prior + added))]),
                           nextobjectid := m.nextobjectid + |added|)
  {
    if m.layers.None? {
      return Err("Cannot read properties of undefined (reading 'find')");
    }
    var ls := m.layers.value;
    var f := FindLayerIndex(ls, "Furniture");
    var c := FindLayerIndex(ls, "Collisions");
    if f == |ls| || c == |ls| {
      return Err("Layers not found!");
    }
    var furniture := ls[f];
    if furniture.data.None? {
      return Err("Cannot read properties of undefined (reading 'length')");
    }
    var added, nextId := ScanFurniture(furniture.data.value, m.width, m.tilewidth, m.tileheight, m.nextobjectid);
    var collisionLayer := ls[c];
    if |added| > 0 {
      if collisionLayer.objects.None? {
        return Err("Cannot read properties of undefined (reading 'push')");
      }
      collisionLayer := collisionLayer.(objects := Some(collisionLayer.objects.value + added));
    }
    r := Ok(m.(layers := Some(ls[c := collisionLayer]), nextobjectid := nextId));
  }

  /**
   * One collider per table tile and none for other values, each 64×16,
   * with ids running consecutively from the old `nextobjectid`
   * (`CollidersPlaced` says where each table's collider sits).
   */
  lemma CollidersSpec(data: seq<int>, width: nat, tw: nat, th: nat, firstId: int)
    requires width > 0
    ensures |CollidersFor(Hits(data, TableGid, |data|), firstId, width, tw, th)| == multiset(data)[TableGid]
    ensures var added := CollidersFor(Hits(data, TableGid, |data|), firstId, width, tw, th);
      forall j :: 0 <= j < |added| ==> added[j].id == firstId + j && added[j].width == 64 && added[j].height == 16
  {
    HitsCount(data, TableGid);
  }

  /** The table at flat index `i` gets the collider numbered by the count of tables before it. */
  lemma CollidersPlaced(data: seq<int>, width: nat, tw: nat, th: nat, firstId: int)
    requires width > 0
    ensures var added := CollidersFor(Hits(data, TableGid, |data|), firstId, width, tw, th);
      forall i :: 0 <= i < |data| && data[i] == TableGid ==>
        var j := |Hits(data, TableGid, i)|;
        j < |added| && added[j] == TableCollider(firstId + j, i, width, tw, th)
  {
    var hits := Hits(data, TableGid, |data|);
    var added := CollidersFor(hits, firstId, width, tw, th);
    forall i | 0 <= i < |data| && data[i] == TableGid
      ensures var j := |Hits(data, TableGid, i)|; j < |added| && added[j] == TableCollider(firstId + j, i, width, tw, th)
    {
      HitsRank(data, TableGid, i);
    }
  }
}
