/**
 * The parts of a Tiled JSON map that the map tools and the map parser read
 * and write: layers (object groups and tile layers), objects with custom
 * properties, and tilesets. Coordinates are whole pixels.
 */
module Tiled {
  import opened Wrappers
  import Seqs

  /** A custom property value. */
  datatype Value = Int(i: int) | Str(s: string) | Bool(b: bool)

  /** JavaScript truthiness of a property value: 0, "" and false are falsy. */
  predicate Truthy(v: Value) {
    match v
    case Int(i) => i != 0
    case Str(s) => s != ""
    case Bool(b) => b
  }

  /** One entry of an object's `properties` list. */
  datatype Property = Property(name: string, value: Value)

  /** An object of an object group; `kind` is Tiled's `type` field. */
  datatype MapObject = MapObject(
    id: int,
    name: Option<string>,
    kind: Option<string>,
    x: int, y: int, width: int, height: int,
    properties: Option<seq<Property>>)

  /** A layer: an object group carries `objects`, a tile layer carries `data`. */
  datatype Layer = Layer(
    name: string,
    kind: string,
    objects: Option<seq<MapObject>>,
    data: Option<seq<int>>,
    width: int, height: int)

  /** A tileset reference. */
  datatype Tileset = Tileset(name: Option<string>, source: Option<string>, firstgid: int)

  /** A map; `layers` is absent when the JSON has no layers array. */
  datatype TiledMap = TiledMap(
    layers: Option<seq<Layer>>,
    width: nat, height: nat,
    tilewidth: nat, tileheight: nat,
    nextobjectid: int,
    tilesets: seq<Tileset>)

  /** Position of the first layer called `name` (`Array.prototype.find`), or the count if there is none. */
  function FindLayerIndex(layers: seq<Layer>, name: string): (k: nat)
    ensures k <= |layers|
    ensures k < |layers| ==> layers[k].name == name
    ensures forall j :: 0 <= j < k ==> layers[j].name != name
  {
    Seqs.FirstWhere(layers, (l: Layer) => l.name == name)
  }

  /** The first layer called `name`, if any. */
  function FindLayer(layers: seq<Layer>, name: string): (r: Option<Layer>)
    ensures r.Some? <==> exists j :: 0 <= j < |layers| && layers[j].name == name
    ensures r.Some? ==> r.value in layers && r.value.name == name
  {
    var k := FindLayerIndex(layers, name);
    if k < |layers| then Some(layers[k]) else None
  }

  /** The flat indices below `n` whose tile id is `gid`, ascending. */
  function Hits(data: seq<int>, gid: int, n: nat): (r: seq<nat>)
    requires n <= |data|
    ensures |r| <= n
    ensures forall j :: 0 <= j < |r| ==> r[j] < n && data[r[j]] == gid
  {
    if n == 0 then [] else Hits(data, gid, n - 1) + (if data[n - 1] == gid then [n - 1] else [])
  }

  /** The hits are strictly ascending, and every index holding `gid` is among them. */
  lemma {:induction false} HitsSpec(data: seq<int>, gid: int, n: nat)
    requires n <= |data|
    ensures forall j1, j2 :: 0 <= j1 < j2 < |Hits(data, gid, n)| ==> Hits(data, gid, n)[j1] < Hits(data, gid, n)[j2]
    ensures forall i :: 0 <= i < n && data[i] == gid ==> i in Hits(data, gid, n)
  {
    if n > 0 {
      HitsSpec(data, gid, n - 1);
    }
  }

  /** The hits below `m` are the first hits below any `n >= m`. */
  lemma {:induction false} HitsExtend(data: seq<int>, gid: int, m: nat, n: nat)
    requires m <= n <= |data|
    ensures |Hits(data, gid, m)| <= |Hits(data, gid, n)|
    ensures Hits(data, gid, n)[..|Hits(data, gid, m)|] == Hits(data, gid, m)
    decreases n
  {
    if m < n {
      HitsExtend(data, gid, m, n - 1);
      var a, b := Hits(data, gid, m), Hits(data, gid, n - 1);
      assert Hits(data, gid, n) == b + (if data[n - 1] == gid then [n - 1] else []);
      assert Hits(data, gid, n)[..|a|] == b[..|a|];
    }
  }

  /** An index holding `gid` sits in the hits at the position given by the number of hits before it. */
  lemma HitsRank(data: seq<int>, gid: int, i: nat)
    requires i < |data| && data[i] == gid
    ensures |Hits(data, gid, i)| < |Hits(data, gid, |data|)|
    ensures Hits(data, gid, |data|)[|Hits(data, gid, i)|] == i
  {
    var a := Hits(data, gid, i);
    assert Hits(data, gid, i + 1) == a + [i];
    HitsExtend(data, gid, i + 1, |data|);
    assert Hits(data, gid, |data|)[..|a| + 1] == a + [i];
    assert (a + [i])[|a|] == i;
  }

  /** The number of hits is the number of entries equal to `gid`. */
  lemma {:induction false} HitsCount(data: seq<int>, gid: int)
    ensures |Hits(data, gid, |data|)| == multiset(data)[gid]
  {
    if |data| > 0 {
      var init := data[..|data| - 1];
      HitsCount(init, gid);
      HitsPrefix(data, init, gid, |init|);
      var last := data[|data| - 1];
      assert data == init + [last];
      assert multiset(data) == multiset(init) + multiset{last};
      assert Hits(data, gid, |data|) == Hits(data, gid, |init|) + (if last == gid then [|init|] else []);
    }
  }

  /** Hits below `n` only depend on the first `n` entries. */
  lemma {:induction false} HitsPrefix(a: seq<int>, b: seq<int>, gid: int, n: nat)
    requires n <= |a| && n <= |b| && a[..n] == b[..n]
    ensures Hits(a, gid, n) == Hits(b, gid, n)
  {
    if n > 0 {
      assert a[n - 1] == a[..n][n - 1] == b[..n][n - 1] == b[n - 1];
      assert a[..n - 1] == a[..n][..n - 1];
      assert b[..n - 1] == b[..n][..n - 1];
      HitsPrefix(a, b, gid, n - 1);
    }
  }
}
