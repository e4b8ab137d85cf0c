/**
 * src/server/systems/ItemSystem.ts: collectible cards lying in the world.
 * A spawn timer drops a random card near one of four school locations
 * every minute while fewer than ten items lie about; a player within 60 px
 * of a card picks it up into their album, or, if the album already holds
 * it, is awarded 5 prestige instead.
 *
 * The random draws and `Date.now()` arrive as a `Roll`; the prestige award
 * is recorded as a call in `awards` (the prestige system of this build
 * ignores it), and the notification sent to the client is not modelled.
 */
module ItemSystem {
  import GameConfig

  /** A position in pixels. */
  datatype Pos = Pos(x: real, y: real)

  /** A `WorldItem`: what lies in the world, with its card number (`dataId`) and registry key (`itemId`). */
  datatype WorldItem = WorldItem(id: string, x: real, y: real, itemType: string, dataId: int, itemId: string)

  /** One `addPrestige(sessionId, amount)` call. */
  datatype Award = Award(sessionId: string, amount: int)

  /** The random draws of one spawn: the location, the scatter, the card and the new item's id. */
  datatype Roll = Roll(location: nat, dx: real, dy: real, card: nat, id: string)

  /** The places cards appear around, in the source's order. */
  const SpawnLocations: seq<GameConfig.Point> :=
    [GameConfig.Courtyard, GameConfig.Forest, GameConfig.GreatHall, GameConfig.AcademicWing]

  const SpawnInterval: real := 60000.0
  const MaxItems: nat := 10
  const PickupRadius: real := 60.0
  const DuplicateBonus: int := 5

  /** What `Math.random()` can give: an index into each list and a scatter of at most 200 px. */
  predicate RollOk(r: Roll, cardIds: seq<int>) {
    r.location < |SpawnLocations| && r.card < |cardIds|
    && -200.0 <= r.dx < 200.0 && -200.0 <= r.dy < 200.0
  }

  /** The card a roll spawns: a registered card, scattered around the chosen location. */
  function SpawnedCard(r: Roll, cardIds: seq<int>): (item: WorldItem)
    requires RollOk(r, cardIds)
    ensures item.id == r.id && item.itemType == "card" && item.dataId in cardIds
    ensures exists k :: (0 <= k < |SpawnLocations| &&
      -200.0 <= item.x - SpawnLocations[k].x as real < 200.0 && -200.0 <= item.y - SpawnLocations[k].y as real < 200.0)
  {
    var loc := SpawnLocations[r.location];
    WorldItem(r.id, loc.x as real + r.dx, loc.y as real + r.dy, "card", cardIds[r.card], "")
  }

  function DistSq(a: Pos, x: real, y: real): real {
    (a.x - x) * (a.x - x) + (a.y - y) * (a.y - y)
  }

  /** No number appears twice. */
  predicate Distinct(s: seq<int>) {
    forall i, j :: 0 <= i < j < |s| ==> s[i] != s[j]
  }

  /** A map grows by at most one entry when one key is set. */
  lemma SetGrowsByOne<K, V>(m: map<K, V>, k: K, v: V)
    ensures |m[k := v]| <= |m| + 1
  {
    if k in m {
      assert m[k := v].Keys == m.Keys;
    } else {
      assert m[k := v].Keys == m.Keys + {k};
    }
  }

  /** A player's album. */
  datatype Collector = Collector(cardCollection: seq<int>)

  /** The item system of a room. */
  class ItemSystem {
    var spawnTimer: real
    var items: map<string, WorldItem>
    var players: map<string, Collector>
    var bodies: map<string, Pos>
    var awards: seq<Award>
    const cardIds: seq<int>

    constructor(cardIds: seq<int>, items: map<string, WorldItem>, players: map<string, Collector>, bodies: map<string, Pos>)
      ensures spawnTimer == 0.0 && this.cardIds == cardIds && awards == []
      ensures this.items == items && this.players == players && this.bodies == bodies
    {
      this.cardIds := cardIds;
      spawnTimer := 0.0;
      this.items, this.players, this.bodies := items, players, bodies;
      awards := [];
    }

    /** No album holds a card twice. */
    predicate AlbumsDistinct()
      reads this
    {
      forall s :: s in players ==> Distinct(players[s].cardCollection)
    }

    /** The item, the player and the player's body exist, and the body is within 60 px of the item. */
    predicate InReach(sessionId: string, itemId: string)
      reads this
    {
      itemId in items && sessionId in players && sessionId in bodies
      && DistSq(bodies[sessionId], items[itemId].x, items[itemId].y) < PickupRadius * PickupRadius
    }

    /** `spawnRandomCard`: the rolled card is put in the world under its id. */
    method SpawnRandomCard(r: Roll)
      requires RollOk(r, cardIds)
      modifies this
      ensures items == old(items)[r.id := SpawnedCard(r, cardIds)]
      ensures spawnTimer == old(spawnTimer) && players == old(players) && bodies == old(bodies) && awards == old(awards)
    {
      var loc := SpawnLocations[r.location];
      var x := loc.x as real + r.dx;
      var y := loc.y as real + r.dy;
      var cardId := cardIds[r.card];
      items := items[r.id := WorldItem(r.id, x, y, "card", cardId, "")];
    }

    /**
     * `update(dt)`: the timer counts up; once past a minute it restarts
     * from 0 and, with fewer than ten items about, one card is spawned. A
     * world of at most ten items stays within that.
     */
    method Update(dt: real, r: Roll)
      requires RollOk(r, cardIds)
      modifies this
      ensures old(spawnTimer) + dt <= SpawnInterval ==> spawnTimer == old(spawnTimer) + dt && items == old(items)
      ensures old(spawnTimer) + dt > SpawnInterval ==> spawnTimer == 0.0
      ensures old(spawnTimer) + dt > SpawnInterval && |old(items)| < MaxItems ==> items == old(items)[r.id := SpawnedCard(r, cardIds)]
      ensures |old(items)| >= MaxItems ==> items == old(items)
      ensures |old(items)| <= MaxItems ==> |items| <= MaxItems
      ensures players == old(players) && bodies == old(bodies) && awards == old(awards)
    {
      spawnTimer := spawnTimer + dt;
      if spawnTimer > SpawnInterval {
        spawnTimer := 0.0;
        if |items| < MaxItems {
          SpawnRandomCard(r);
          SetGrowsByOne(old(items), r.id, SpawnedCard(r, cardIds));
        }
      }
    }

    /**
     * `tryCollectItem`: nothing happens unless the item, the player and the
     * player's body exist and the body is within 60 px. Then the card joins
     * the album if it is new there, or earns a 5 prestige award if not, and
     * the item leaves the world. The albums stay free of repeats.
     */
    method TryCollectItem(sessionId: string, itemId: string)
      modifies this
      ensures spawnTimer == old(spawnTimer) && bodies == old(bodies) && players.Keys == old(players.Keys)
      ensures !old(InReach(sessionId, itemId)) ==> items == old(items) && players == old(players) && awards == old(awards)
      ensures old(InReach(sessionId, itemId)) ==>
        var card := old(items)[itemId].dataId;
        var album := old(players)[sessionId].cardCollection;
        && items == old(items) - {itemId}
        && (card !in album ==> players == old(players)[sessionId := Collector(album + [card])] && awards == old(awards))
        && (card in album ==> players == old(players) && awards == old(awards) + [Award(sessionId, DuplicateBonus)])
      ensures old(AlbumsDistinct()) ==> AlbumsDistinct()
    {
      if itemId !in items || sessionId !in players || sessionId !in bodies {
        return;
      }
      var item := items[itemId];
      var player := players[sessionId];
      var pos := bodies[sessionId];
      if DistSq(pos, item.x, item.y) < PickupRadius * PickupRadius {
        if item.dataId !in player.cardCollection {
          players := players[sessionId := Collector(player.cardCollection + [item.dataId])];
        } else {
          awards := awards + [Award(sessionId, DuplicateBonus)];
        }
        items := items - {itemId};
      }
    }
  }
}
