/**
 * tools/find_desks.js: finds the first gid of the table tileset and lists
 * the pixel position of every Furniture tile that holds it.
 */
module FindDesks {
  import opened Wrappers
  import opened Strings
  import opened Tiled

  /** The tileset is the table tileset: named "table", or with a source path containing "table.tsx". */
  predicate IsTable(ts: Tileset) {
    ts.name == Some("table") || Contains(ts.source.GetOr(""), "table.tsx")
  }

  /** The `firstgid` of the last table tileset, or −1 when there is none. */
  function LastTableGid(tilesets: seq<Tileset>): int {
    if |tilesets| == 0 then -1
    else if IsTable(tilesets[|tilesets| - 1]) then tilesets[|tilesets| - 1].firstgid
    else LastTableGid(tilesets[..|tilesets| - 1])
  }

  /** The `forEach`: every table tileset overwrites `tableGid`, starting from −1. */
  method FindTableGid(tilesets: seq<Tileset>) returns (tableGid: int)
    ensures tableGid == LastTableGid(tilesets)
  {
    tableGid := -1;
    for i := 0 to |tilesets|
      invariant tableGid == LastTableGid(tilesets[..i])
    {
      var ts := tilesets[i];
      var src := ts.source.GetOr("");
      if ts.name == Some("table") || Contains(src, "table.tsx") {
        tableGid := ts.firstgid;
      }
      assert tilesets[..i + 1][..i] == tilesets[..i];
    }
    assert tilesets[..|tilesets|] == tilesets;
  }

  /** Without a table tileset the gid is −1; otherwise it is the `firstgid` of a table tileset after which no table tileset follows. */
  lemma {:induction false} LastTableGidSpec(tilesets: seq<Tileset>)
    ensures (forall k :: 0 <= k < |tilesets| ==> !IsTable(tilesets[k])) ==> LastTableGid(tilesets) == -1
    ensures (exists k :: 0 <= k < |tilesets| && IsTable(tilesets[k])) ==>
      exists k :: 0 <= k < |tilesets| && IsTable(tilesets[k]) && LastTableGid(tilesets) == tilesets[k].firstgid
        && forall j :: k < j < |tilesets| ==> !IsTable(tilesets[j])
  {
    if |tilesets| > 0 {
      var init := tilesets[..|tilesets| - 1];
      LastTableGidSpec(init);
      if !IsTable(tilesets[|tilesets| - 1]) {
        assert forall k :: 0 <= k < |init| ==> init[k] == tilesets[k];
      }
    }
  }

  /** The position reported for the table tile at flat index i, on the fixed 32-pixel grid. */
  function TablePos(i: nat, width: nat): (int, int)
    requires width > 0
  {
    ((i % width) * 32, (i / width) * 32)
  }

  /** The scan: the positions of the tiles equal to `tableGid`, in index order. */
  method ScanTables(data: seq<int>, width: nat, tableGid: int) returns (tables: seq<(int, int)>)
    requires width > 0
    ensures |tables| == |Hits(data, tableGid, |data|)|
    ensures forall j :: 0 <= j < |tables| ==> tables[j] == TablePos(Hits(data, tableGid, |data|)[j], width)
  {
    tables := [];
    for i := 0 to |data|
      invariant |tables| == |Hits(data, tableGid, i)|
      invariant forall j :: 0 <= j < |tables| ==> tables[j] == TablePos(Hits(data, tableGid, i)[j], width)
    {
      var gid := data[i];
      if gid == tableGid {
        var x := (i % width) * 32;
        var y := (i / width) * 32;
        tables := tables + [(x, y)];
      }
    }
  }

  /**
   * The script: exit status 1 without a table tileset or without a
   * Furniture layer (or when the map has no `layers` or that layer has no
   * `data`, where the source throws); otherwise the table positions.
   */
  method FindDesks(m: TiledMap) returns (r: Result<seq<(int, int)>>)
    requires m.layers.Some? && FindLayerIndex(m.layers.value, "Furniture") < |m.layers.value| ==>
      m.layers.value[FindLayerIndex(m.layers.value, "Furniture")].width > 0
    ensures LastTableGid(m.tilesets) == -1 ==> r.Err?
    ensures LastTableGid(m.tilesets) != -1 && m.layers.None? ==> r.Err?
    ensures LastTableGid(m.tilesets) != -1 && m.layers.Some? ==>
      var ls := m.layers.value;
      var f := FindLayerIndex(ls, "Furniture");
      if f == |ls| || ls[f].data.None? then r.Err?
      else
        var hits := Hits(ls[f].data.value, LastTableGid(m.tilesets), |ls[f].data.value|);
        && r.Ok? && |r.value| == |hits|
        && forall j :: 0 <= j < |hits| ==> r.value[j] == TablePos(hits[j], ls[f].width)
  {
    var tableGid := FindTableGid(m.tilesets);
    if tableGid == -1 {
      return Err("Could not find 'table' tileset");
    }
    if m.layers.None? {
      return Err("Cannot read properties of undefined (reading 'find')");
    }
    var ls := m.layers.value;
    var f := FindLayerIndex(ls, "Furniture");
    if f == |ls| {
      return Err("Could not find 'Furniture' layer");
    }
    var furniture := ls[f];
    if furniture.data.None? {
      return Err("Cannot read properties of undefined (reading 'length')");
    }
    var tables := ScanTables(furniture.data.value, furniture.width, tableGid);
    r := Ok(tables);
  }

  /** The reported count is the number of entries equal to the table gid, and entries are in index order. */
  lemma TablesSpec(data: seq<int>, width: nat, tableGid: int)
    requires width > 0
    ensures |Hits(data, tableGid, |data|)| == multiset(data)[tableGid]
    ensures forall i :: 0 <= i < |data| && data[i] == tableGid ==> i in Hits(data, tableGid, |data|)
  {
    HitsCount(data, tableGid);
    HitsSpec(data, tableGid, |data|);
  }
}
