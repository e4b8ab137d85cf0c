/**
 * dist-server/server/systems/ItemSystem.js: the server build's items. Any
 * registry item, not only cards, spawns every 30 s while fewer than twenty
 * lie about. A pickup within 60 px puts the item in the player's inventory,
 * on an existing stack for a stackable item and as a new entry of one
 * otherwise; a card with a positive number also joins the album, or earns
 * 5 prestige when already there.
 *
 * The random draws and `Date.now()` arrive as a `Roll`; each prestige award
 * is recorded in `awards` (this build's prestige system applies it as
 * `PrestigeDist.Add`), and the notification is not modelled. items.json is
 * not part of this model: the registry and its key order are parameters.
 */
module ItemSystemDist {
  import opened Wrappers
  import Strings
  import ItemRegistry
  import opened ItemSystem

  /** An `InventoryItem`. */
  datatype InvItem = InvItem(itemId: string, qty: int)

  /** The part of a player's state that pickups change. */
  datatype Holder = Holder(inventory: seq<InvItem>, cardCollection: seq<int>)

  const SpawnIntervalDist: real := 30000.0
  const MaxItemsDist: nat := 20

  /** What `Math.random()` can give for a spawn from `keys`. */
  predicate RollOkDist(r: Roll, keys: seq<string>) {
    r.location < |SpawnLocations| && r.card < |keys|
    && -200.0 <= r.dx < 200.0 && -200.0 <= r.dy < 200.0
  }

  /** The legacy card number of a registry key: the number after `card_`, or 0. */
  function LegacyNumber(key: string): (n: int)
    ensures !Strings.StartsWith(key, "card_") ==> n == 0
  {
    if Strings.StartsWith(key, "card_") then ItemRegistry.CardNumber(key).GetOr(0) else 0
  }

  /** A key `card_<n>` spawns with number `n`. */
  lemma LegacyNumberOfCard(n: nat)
    ensures LegacyNumber("card_" + Strings.NatToString(n)) == n
  {
    var key := "card_" + Strings.NatToString(n);
    assert key[..5] == "card_";
    assert "card_" == "card" + ['_'] + [];
    assert key == "card" + ['_'] + Strings.NatToString(n);
    ItemRegistry.CardNumberOf("card", n);
  }

  /** The item a roll spawns, of the rolled key's type in lower case. */
  function SpawnedItem(r: Roll, keys: seq<string>, registry: map<string, ItemRegistry.ItemDef>): (item: WorldItem)
    requires RollOkDist(r, keys) && keys[r.card] in registry
    ensures item.id == r.id && item.itemId == keys[r.card] && item.itemId in registry
    ensures item.itemType == Strings.Lower(registry[item.itemId].itemType)
    ensures item.dataId == LegacyNumber(item.itemId)
  {
    var loc := SpawnLocations[r.location];
    var key := keys[r.card];
    WorldItem(r.id, loc.x as real + r.dx, loc.y as real + r.dy, Strings.Lower(registry[key].itemType), LegacyNumber(key), key)
  }

  /** The units of `id` held, over all entries. */
  function QtyOf(inv: seq<InvItem>, id: string): int
    decreases |inv|
  {
    if |inv| == 0 then 0
    else QtyOf(inv[..|inv| - 1], id) + (if inv[|inv| - 1].itemId == id then inv[|inv| - 1].qty else 0)
  }

  /** `inventory.find(i => i.itemId === id)`: the first entry of that item, or -1. */
  function FindStack(inv: seq<InvItem>, id: string): (i: int)
    ensures -1 <= i < |inv|
    ensures i >= 0 ==> inv[i].itemId == id && forall k :: 0 <= k < i ==> inv[k].itemId != id
    ensures i == -1 ==> forall k :: 0 <= k < |inv| ==> inv[k].itemId != id
    decreases |inv|
  {
    if |inv| == 0 then -1
    else if inv[0].itemId == id then 0
    else
      var j := FindStack(inv[1..], id);
      if j == -1 then -1 else j + 1
  }

  /** An appended entry adds its units to its own item only. */
  lemma QtyAppend(inv: seq<InvItem>, x: InvItem, id: string)
    ensures QtyOf(inv + [x], id) == QtyOf(inv, id) + (if x.itemId == id then x.qty else 0)
  {
    assert (inv + [x])[..|inv|] == inv;
  }

  /** One more unit on an entry of `item` is one more of `item`, and the same of every other item. */
  lemma {:induction false} QtyBump(inv: seq<InvItem>, i: nat, item: string, id: string)
    requires i < |inv| && inv[i].itemId == item
    ensures QtyOf(inv[i := inv[i].(qty := inv[i].qty + 1)], id) == QtyOf(inv, id) + (if id == item then 1 else 0)
    decreases |inv|
  {
    var bumped := inv[i := inv[i].(qty := inv[i].qty + 1)];
    var n := |inv| - 1;
    if i < n {
      assert bumped[..n] == inv[..n][i := inv[i].(qty := inv[i].qty + 1)];
      QtyBump(inv[..n], i, item, id);
    } else {
      assert bumped[..n] == inv[..n];
    }
  }

  /**
   * Step 1 of a pickup: a stackable item with an entry already gets one
   * more unit there; otherwise one new entry of one unit is appended.
   * Either way the player holds exactly one more unit of the item and the
   * same of every other.
   */
  function Stow(inv: seq<InvItem>, itemId: string, stackable: bool): (r: seq<InvItem>)
    ensures forall id :: QtyOf(r, id) == QtyOf(inv, id) + (if id == itemId then 1 else 0)
    ensures stackable && FindStack(inv, itemId) >= 0 ==> |r| == |inv|
    ensures !(stackable && FindStack(inv, itemId) >= 0) ==> r == inv + [InvItem(itemId, 1)]
  {
    var i := FindStack(inv, itemId);
    if stackable && i >= 0 then
      var r := inv[i := inv[i].(qty := inv[i].qty + 1)];
      assert forall id :: QtyOf(r, id) == QtyOf(inv, id) + (if id == itemId then 1 else 0) by {
        forall id ensures QtyOf(r, id) == QtyOf(inv, id) + (if id == itemId then 1 else 0) {
          QtyBump(inv, i, itemId, id);
        }
      }
      r
    else
      assert forall id :: QtyOf(inv + [InvItem(itemId, 1)], id) == QtyOf(inv, id) + (if id == itemId then 1 else 0) by {
        forall id ensures QtyOf(inv + [InvItem(itemId, 1)], id) == QtyOf(inv, id) + (if id == itemId then 1 else 0) {
          QtyAppend(inv, InvItem(itemId, 1), id);
        }
      }
      inv + [InvItem(itemId, 1)]
  }

  /** The item system of a room, in the server build. */
  class ItemSystemDist {
    var spawnTimer: real
    var items: map<string, WorldItem>
    var players: map<string, Holder>
    var bodies: map<string, Pos>
    var awards: seq<Award>
    const registry: map<string, ItemRegistry.ItemDef>
    const keys: seq<string>

    constructor(registry: map<string, ItemRegistry.ItemDef>, keys: seq<string>,
                items: map<string, WorldItem>, players: map<string, Holder>, bodies: map<string, Pos>)
      ensures spawnTimer == 0.0 && this.registry == registry && this.keys == keys && awards == []
      ensures this.items == items && this.players == players && this.bodies == bodies
    {
      this.registry, this.keys := registry, keys;
      spawnTimer := 0.0;
      this.items, this.players, this.bodies := items, players, bodies;
      awards := [];
    }

    /** `Object.keys(ITEM_REGISTRY)` lists exactly the registry's keys. */
    predicate KeysListed()
      reads this
    {
      forall k :: 0 <= k < |keys| ==> keys[k] in registry
    }

    /** No album holds a card twice. */
    predicate AlbumsDistinct()
      reads this
    {
      forall s :: s in players ==> Distinct(players[s].cardCollection)
    }

    predicate InReach(sessionId: string, worldItemId: string)
      reads this
    {
      worldItemId in items && sessionId in players && sessionId in bodies
      && DistSq(bodies[sessionId], items[worldItemId].x, items[worldItemId].y) < PickupRadius * PickupRadius
    }

    /** `spawnRandomItem`: the rolled registry item is put in the world under its id. */
    method SpawnRandomItem(r: Roll)
      requires KeysListed() && RollOkDist(r, keys)
      modifies this
      ensures items == old(items)[r.id := SpawnedItem(r, keys, registry)]
      ensures spawnTimer == old(spawnTimer) && players == old(players) && bodies == old(bodies) && awards == old(awards)
    {
      var loc := SpawnLocations[r.location];
      var x := loc.x as real + r.dx;
      var y := loc.y as real + r.dy;
      var randomKey := keys[r.card];
      var itemDef := registry[randomKey];
      var item := WorldItem(r.id, x, y, Strings.Lower(itemDef.itemType), 0, randomKey);
      if Strings.StartsWith(randomKey, "card_") {
        var numId := ItemRegistry.CardNumber(randomKey);
        if numId.Some? {
          item := item.(dataId := numId.value);
        }
      }
      items := items[r.id := item];
    }

    /**
     * `update(dt)`: past 30 s the timer restarts from 0 and, with fewer
     * than twenty items about, one item is spawned. A world of at most
     * twenty items stays within that.
     */
    method Update(dt: real, r: Roll)
      requires KeysListed() && RollOkDist(r, keys)
      modifies this
      ensures old(spawnTimer) + dt <= SpawnIntervalDist ==> spawnTimer == old(spawnTimer) + dt && items == old(items)
      ensures old(spawnTimer) + dt > SpawnIntervalDist ==> spawnTimer == 0.0
      ensures old(spawnTimer) + dt > SpawnIntervalDist && |old(items)| < MaxItemsDist ==>
        items == old(items)[r.id := SpawnedItem(r, keys, registry)]
      ensures |old(items)| >= MaxItemsDist ==> items == old(items)
      ensures |old(items)| <= MaxItemsDist ==> |items| <= MaxItemsDist
      ensures players == old(players) && bodies == old(bodies) && awards == old(awards)
    {
      spawnTimer := spawnTimer + dt;
      if spawnTimer > SpawnIntervalDist {
        spawnTimer := 0.0;
        if |items| < MaxItemsDist {
          SpawnRandomItem(r);
          SetGrowsByOne(old(items), r.id, SpawnedItem(r, keys, registry));
        }
      }
    }

    /**
     * `tryCollectItem`: out of reach, nothing happens. An item with no
     * registry entry just leaves the world. Otherwise the item is stowed,
     * a card with a positive number joins the album when new there and
     * earns a 5 prestige award when not, and the item leaves the world.
     */
    method TryCollectItem(sessionId: string, worldItemId: string)
      modifies this
      ensures spawnTimer == old(spawnTimer) && bodies == old(bodies) && players.Keys == old(players.Keys)
      ensures !old(InReach(sessionId, worldItemId)) ==> items == old(items) && players == old(players) && awards == old(awards)
      ensures old(InReach(sessionId, worldItemId)) ==>
        var w := old(items)[worldItemId];
        var p := old(players)[sessionId];
        && items == old(items) - {worldItemId}
        && (w.itemId !in registry ==> players == old(players) && awards == old(awards))
        && (w.itemId in registry ==>
              var isCard := w.itemType == "card" && w.dataId > 0;
              var album := if isCard && w.dataId !in p.cardCollection then p.cardCollection + [w.dataId] else p.cardCollection;
              && players == old(players)[sessionId := Holder(Stow(p.inventory, w.itemId, registry[w.itemId].stackable), album)]
              && awards == old(awards) + (if isCard && w.dataId in p.cardCollection then [Award(sessionId, DuplicateBonus)] else []))
      ensures old(AlbumsDistinct()) ==> AlbumsDistinct()
    {
      if worldItemId !in items || sessionId !in players || sessionId !in bodies {
        return;
      }
      var worldItem := items[worldItemId];
      var player := players[sessionId];
      var pos := bodies[sessionId];
      if DistSq(pos, worldItem.x, worldItem.y) >= PickupRadius * PickupRadius {
        return;
      }
      if worldItem.itemId !in registry {
        items := items - {worldItemId};
        return;
      }
      var itemDef := registry[worldItem.itemId];
      var inventory := player.inventory;
      var addedToStack := false;
      if itemDef.stackable {
        var i := FindStack(inventory, worldItem.itemId);
        if i >= 0 {
          inventory := inventory[i := inventory[i].(qty := inventory[i].qty + 1)];
          addedToStack := true;
        }
      }
      if !addedToStack {
        inventory := inventory + [InvItem(worldItem.itemId, 1)];
      }
      var album := player.cardCollection;
      if worldItem.itemType == "card" && worldItem.dataId > 0 {
        if worldItem.dataId !in album {
          album := album + [worldItem.dataId];
        } else {
          awards := awards + [Award(sessionId, DuplicateBonus)];
        }
      }
      players := players[sessionId := Holder(inventory, album)];
      items := items - {worldItemId};
    }
  }
}
