/**
 * dist-server/server/systems/DuelSystem.js: the tatami. Every tick each
 * entity with a body and a player state is checked against the duel zone:
 * stepping in starts a duel at score 0, stepping out ends it at score 0 and
 * sends the entity's AI back to idle. An AI inside the zone that is not yet
 * duelling picks the nearest duelling player of another house as its target.
 *
 * Body positions arrive in the entities' `body` field; the iteration orders
 * of the two JS maps are parameters. `Math.sqrt(d2) < r` is compared as
 * `d2 < r * r`, which is the same test for the non-negative radius and
 * distances here.
 */
module DuelSystem {
  import opened Wrappers
  import GameConfig

  /** A position in pixels. */
  datatype Pos = Pos(x: real, y: real)

  /** The duel-relevant part of a player state: house, synced position, duel flag and score. */
  datatype Duellist = Duellist(house: string, x: real, y: real, inDuel: bool, duelScore: int)

  /** An entity's AI component: its state name, target and timer. */
  datatype Mind = Mind(state: string, targetId: Option<string>, timer: real)

  /** An entity: its body's position, if it has a body, and its AI, if it has one. */
  datatype Entity = Entity(body: Option<Pos>, ai: Option<Mind>)

  /** The room as this system sees it. */
  datatype Room = Room(entities: map<string, Entity>, players: map<string, Duellist>)

  /** The body lies strictly within `DUEL_ZONE.radius` of the zone centre. */
  predicate InZone(p: Pos) {
    var dx := p.x - GameConfig.DuelZoneCentre.x as real;
    var dy := p.y - GameConfig.DuelZoneCentre.y as real;
    dx * dx + dy * dy < (GameConfig.DuelZoneRadius * GameConfig.DuelZoneRadius) as real
  }

  /** A player's duel state after the zone check, `inside` saying whether the body is in the zone. */
  function Zoned(p: Duellist, inside: bool): (r: Duellist)
    ensures r.inDuel == inside
    ensures r.house == p.house && r.x == p.x && r.y == p.y
    ensures inside == p.inDuel ==> r == p
    ensures inside != p.inDuel ==> r.duelScore == 0
  {
    if inside then (if p.inDuel then p else p.(inDuel := true, duelScore := 0))
    else (if p.inDuel then p.(inDuel := false, duelScore := 0) else p)
  }

  // ------------------------------------------------------- target choice

  /** Squared distance from the chooser's body to a player's synced position. */
  function DistSq(p: Duellist, me: Pos): real {
    (p.x - me.x) * (p.x - me.x) + (p.y - me.y) * (p.y - me.y)
  }

  /** A player the chooser `myId` of house `house` may target: someone else, in a duel, of another house. */
  predicate Eligible(players: map<string, Duellist>, id: string, myId: string, house: string)
    requires id in players
  {
    id != myId && players[id].inDuel && players[id].house != house
  }

  /** The players are listed in `order`. */
  predicate Listed(players: map<string, Duellist>, order: seq<string>) {
    forall k :: 0 <= k < |order| ==> order[k] in players
  }

  /**
   * The min-distance walk of `assignDuelTarget` over `order` from entry `i`,
   * `best` being the entry chosen so far (none: `minDist` is still infinite).
   * A later entry replaces it only when strictly nearer.
   */
  function Pick(players: map<string, Duellist>, order: seq<string>, i: nat, myId: string, house: string, me: Pos, best: Option<nat>): Option<nat>
    requires Listed(players, order) && i <= |order|
    requires best.Some? ==> best.value < |order|
    decreases |order| - i
  {
    if i == |order| then best
    else if !Eligible(players, order[i], myId, house) then Pick(players, order, i + 1, myId, house, me, best)
    else if best.None? || DistSq(players[order[i]], me) < DistSq(players[order[best.value]], me) then
      Pick(players, order, i + 1, myId, house, me, Some(i))
    else Pick(players, order, i + 1, myId, house, me, best)
  }

  /**
   * `best` is the right choice among the first `i` entries: none if none is
   * eligible, else an eligible one at least as near as every eligible entry
   * and strictly nearer than every eligible entry before it.
   */
  predicate Chosen(players: map<string, Duellist>, order: seq<string>, i: nat, myId: string, house: string, me: Pos, best: Option<nat>)
    requires Listed(players, order) && i <= |order|
  {
    match best
    case None => forall k :: 0 <= k < i ==> !Eligible(players, order[k], myId, house)
    case Some(b) =>
      && b < i && Eligible(players, order[b], myId, house)
      && (forall k :: 0 <= k < i && Eligible(players, order[k], myId, house) ==>
            DistSq(players[order[b]], me) <= DistSq(players[order[k]], me))
      && (forall k :: 0 <= k < b && Eligible(players, order[k], myId, house) ==>
            DistSq(players[order[b]], me) < DistSq(players[order[k]], me))
  }

  /** The walk keeps its choice right, so at the end it is right for the whole list. */
  lemma {:induction false} PickChosen(players: map<string, Duellist>, order: seq<string>, i: nat, myId: string, house: string, me: Pos, best: Option<nat>)
    requires Listed(players, order) && i <= |order|
    requires best.Some? ==> best.value < |order|
    requires Chosen(players, order, i, myId, house, me, best)
    ensures var r := Pick(players, order, i, myId, house, me, best);
      (r.Some? ==> r.value < |order|) && Chosen(players, order, |order|, myId, house, me, r)
    decreases |order| - i
  {
    if i < |order| {
      if !Eligible(players, order[i], myId, house) {
        PickChosen(players, order, i + 1, myId, house, me, best);
      } else if best.None? || DistSq(players[order[i]], me) < DistSq(players[order[best.value]], me) {
        PickChosen(players, order, i + 1, myId, house, me, Some(i));
      } else {
        PickChosen(players, order, i + 1, myId, house, me, best);
      }
    }
  }

  /** The player `assignDuelTarget` settles on, if any. */
  function Target(players: map<string, Duellist>, order: seq<string>, myId: string, house: string, me: Pos): Option<string>
    requires Listed(players, order)
  {
    PickChosen(players, order, 0, myId, house, me, None);
    match Pick(players, order, 0, myId, house, me, None)
    case None => None
    case Some(b) => Some(order[b])
  }

  /**
   * The target is never the chooser, is duelling and is of another house;
   * it is the nearest such player of the list, the first one listed among
   * equally near ones; and there is none only when no listed player qualifies.
   */
  lemma TargetSpec(players: map<string, Duellist>, order: seq<string>, myId: string, house: string, me: Pos)
    requires Listed(players, order)
    ensures var t := Target(players, order, myId, house, me);
      && (t.None? <==> forall k :: 0 <= k < |order| ==> !Eligible(players, order[k], myId, house))
      && (t.Some? ==>
            && t.value in players && t.value != myId && players[t.value].inDuel && players[t.value].house != house
            && (exists b :: 0 <= b < |order| && order[b] == t.value
                  && (forall k :: 0 <= k < |order| && Eligible(players, order[k], myId, house) ==>
                        DistSq(players[t.value], me) <= DistSq(players[order[k]], me))
                  && (forall k :: 0 <= k < b && Eligible(players, order[k], myId, house) ==>
                        DistSq(players[t.value], me) < DistSq(players[order[k]], me))))
  {
    PickChosen(players, order, 0, myId, house, me, None);
    var r := Pick(players, order, 0, myId, house, me, None);
    if r.Some? {
      var b := r.value;
      assert order[b] == Target(players, order, myId, house, me).value;
    }
  }

  /** When every player is listed, the target is nearer than, or as near as, every eligible player of the room. */
  lemma TargetNearest(players: map<string, Duellist>, order: seq<string>, myId: string, house: string, me: Pos, other: string)
    requires Listed(players, order)
    requires forall id :: id in players ==> id in order
    requires other in players && Eligible(players, other, myId, house)
    ensures var t := Target(players, order, myId, house, me);
      t.Some? && t.value in players && DistSq(players[t.value], me) <= DistSq(players[other], me)
  {
    TargetSpec(players, order, myId, house, me);
    var k :| 0 <= k < |order| && order[k] == other;
    assert Eligible(players, order[k], myId, house);
  }

  /**
   * `assignDuelTarget(entity, myId)`: with a target found (and not the
   * empty string, which JS treats as none) the AI duels it with its timer
   * reset; otherwise, or without a player state, nothing changes.
   */
  function Assign(s: Room, myId: string, order: seq<string>): (t: Room)
    requires Listed(s.players, order)
    requires myId in s.entities && s.entities[myId].body.Some? && s.entities[myId].ai.Some?
    ensures t.players == s.players && t.entities.Keys == s.entities.Keys
    ensures forall id :: id in s.entities && id != myId ==> t.entities[id] == s.entities[id]
  {
    if myId !in s.players then s
    else
      var e := s.entities[myId];
      var target := Target(s.players, order, myId, s.players[myId].house, e.body.value);
      if target.Some? && target.value != "" then
        var ai := e.ai.value.(targetId := target, state := "duel", timer := 0.0);
        s.(entities := s.entities[myId := e.(ai := Some(ai))])
      else s
  }

  /** What an assignment does to the chooser's AI: it duels the `Target` with timer 0, or is left as it was. */
  lemma AssignSpec(s: Room, myId: string, order: seq<string>)
    requires Listed(s.players, order)
    requires myId in s.entities && s.entities[myId].body.Some? && s.entities[myId].ai.Some?
    requires myId in s.players
    ensures var t := Assign(s, myId, order);
      var target := Target(s.players, order, myId, s.players[myId].house, s.entities[myId].body.value);
      && t.entities[myId].body == s.entities[myId].body
      && (target.None? || target == Some("") ==> t == s)
      && (target.Some? && target != Some("") ==>
            && t.entities[myId].ai.Some?
            && t.entities[myId].ai.value == s.entities[myId].ai.value.(targetId := target, state := "duel", timer := 0.0)
            && target.value != myId && target.value in s.players && s.players[target.value].inDuel
            && s.players[target.value].house != s.players[myId].house)
  {
    TargetSpec(s.players, order, myId, s.players[myId].house, s.entities[myId].body.value);
  }

  // ------------------------------------------------------------ the tick

  /** The AI of an entity leaving the zone goes idle. */
  function Idle(e: Entity): Entity {
    if e.ai.Some? then e.(ai := Some(e.ai.value.(state := "idle"))) else e
  }

  /** One entity's turn in `update`. */
  function Step(s: Room, id: string, order: seq<string>): (t: Room)
    requires Listed(s.players, order)
    ensures t.players.Keys == s.players.Keys && t.entities.Keys == s.entities.Keys
    ensures forall x :: x in s.entities ==> t.entities[x].body == s.entities[x].body
    ensures forall x :: x in s.players && x != id ==> t.players[x] == s.players[x]
    ensures forall x :: x in s.entities && x != id ==> t.entities[x] == s.entities[x]
  {
    if id !in s.entities || s.entities[id].body.None? || id !in s.players then s
    else
      var e := s.entities[id];
      var p := s.players[id];
      var inside := InZone(e.body.value);
      var s1 := s.(players := s.players[id := Zoned(p, inside)]);
      if inside then
        if e.ai.Some? && e.ai.value.state != "duel" then Assign(s1, id, order) else s1
      else if p.inDuel then s1.(entities := s.entities[id := Idle(e)])
      else s
  }

  /** `update`: the entities take their turns in `entities` order, from entry `i` on. */
  function Sweep(s: Room, entityOrder: seq<string>, i: nat, order: seq<string>): Room
    requires Listed(s.players, order) && i <= |entityOrder|
    decreases |entityOrder| - i
  {
    if i == |entityOrder| then s
    else Sweep(Step(s, entityOrder[i], order), entityOrder, i + 1, order)
  }

  /** The turns only touch their own entities, and keep every key and every body. */
  lemma {:induction false} SweepFrame(s: Room, entityOrder: seq<string>, i: nat, order: seq<string>)
    requires Listed(s.players, order) && i <= |entityOrder|
    ensures var t := Sweep(s, entityOrder, i, order);
      && t.players.Keys == s.players.Keys && t.entities.Keys == s.entities.Keys
      && (forall x :: x in s.entities ==> t.entities[x].body == s.entities[x].body)
      && (forall x :: x in s.players && x !in entityOrder[i..] ==> t.players[x] == s.players[x])
      && (forall x :: x in s.entities && x !in entityOrder[i..] ==> t.entities[x] == s.entities[x])
    decreases |entityOrder| - i
  {
    if i < |entityOrder| {
      var s1 := Step(s, entityOrder[i], order);
      SweepFrame(s1, entityOrder, i + 1, order);
      forall x | x in s.players && x !in entityOrder[i..]
        ensures x !in entityOrder[i + 1..] && x != entityOrder[i]
      {
        assert entityOrder[i..] == [entityOrder[i]] + entityOrder[i + 1..];
      }
      forall x | x in s.entities && x !in entityOrder[i..]
        ensures x !in entityOrder[i + 1..] && x != entityOrder[i]
      {
        assert entityOrder[i..] == [entityOrder[i]] + entityOrder[i + 1..];
      }
    }
  }

  /** No entity is listed twice. */
  predicate Distinct(s: seq<string>) {
    forall a, b :: 0 <= a < b < |s| ==> s[a] != s[b]
  }

  /**
   * What `update` leaves for an entity with a body and a player state,
   * listed at `k`: `inDuel` says whether the body is in the zone, the score
   * restarts at 0 on entering and on leaving and is kept otherwise, and a
   * leaving entity's AI goes idle. An AI already duelling, an entity without
   * an AI and one outside the zone that was not duelling are left alone.
   */
  predicate Settled(s: Room, t: Room, id: string)
    requires id in s.entities && id in s.players && s.entities[id].body.Some?
    requires id in t.entities && id in t.players
  {
    var e := s.entities[id];
    var inside := InZone(e.body.value);
    && t.players[id] == Zoned(s.players[id], inside)
    && (!inside ==> t.entities[id] == (if s.players[id].inDuel then Idle(e) else e))
    && (inside && (e.ai.None? || e.ai.value.state == "duel") ==> t.entities[id] == e)
  }

  /** Every listed entity ends up `Settled` against the room before the tick. */
  lemma {:induction false} SweepSettles(s: Room, entityOrder: seq<string>, i: nat, order: seq<string>, k: nat)
    requires Listed(s.players, order) && i <= k < |entityOrder| && Distinct(entityOrder)
    requires entityOrder[k] in s.entities && entityOrder[k] in s.players && s.entities[entityOrder[k]].body.Some?
    ensures var t := Sweep(s, entityOrder, i, order);
      entityOrder[k] in t.entities && entityOrder[k] in t.players && Settled(s, t, entityOrder[k])
    decreases |entityOrder| - i
  {
    var s1 := Step(s, entityOrder[i], order);
    SweepFrame(s1, entityOrder, i + 1, order);
    if k == i {
      assert entityOrder[i] !in entityOrder[i + 1..];
    } else {
      SweepSettles(s1, entityOrder, i + 1, order, k);
    }
  }

  /** After `update`, an entity with a body and a player state is in a duel exactly when its body is in the zone. */
  lemma UpdateInDuelIffInZone(s: Room, entityOrder: seq<string>, order: seq<string>, id: string)
    requires Listed(s.players, order) && Distinct(entityOrder) && id in entityOrder
    requires id in s.entities && id in s.players && s.entities[id].body.Some?
    ensures var t := Sweep(s, entityOrder, 0, order);
      id in t.players && (t.players[id].inDuel <==> InZone(s.entities[id].body.value))
  {
    var k :| 0 <= k < |entityOrder| && entityOrder[k] == id;
    SweepSettles(s, entityOrder, 0, order, k);
  }

  /** An entity without a body, or without a player state, is skipped: its entity and its player state stay as they were. */
  lemma UpdateSkips(s: Room, entityOrder: seq<string>, order: seq<string>, id: string)
    requires Listed(s.players, order) && Distinct(entityOrder)
    requires id in s.entities && (s.entities[id].body.None? || id !in s.players)
    ensures var t := Sweep(s, entityOrder, 0, order);
      id in t.entities && t.entities[id] == s.entities[id]
      && (id in s.players ==> id in t.players && t.players[id] == s.players[id])
  {
    SkipsFrom(s, entityOrder, 0, order, id);
  }

  /** The turns from `i` on leave a skipped entity alone. */
  lemma {:induction false} SkipsFrom(s: Room, entityOrder: seq<string>, i: nat, order: seq<string>, id: string)
    requires Listed(s.players, order) && i <= |entityOrder|
    requires id in s.entities && (s.entities[id].body.None? || id !in s.players)
    ensures var t := Sweep(s, entityOrder, i, order);
      id in t.entities && t.entities[id] == s.entities[id]
      && (id in s.players ==> id in t.players && t.players[id] == s.players[id])
    decreases |entityOrder| - i
  {
    if i < |entityOrder| {
      var s1 := Step(s, entityOrder[i], order);
      assert s1.entities[id] == s.entities[id];
      assert id in s.players ==> s1.players[id] == s.players[id];
      SkipsFrom(s1, entityOrder, i + 1, order, id);
    }
  }

  // ---------------------------------------------------------- the system

  /** The duel system of a room. */
  class DuelSystem {
    var entities: map<string, Entity>
    var players: map<string, Duellist>

    constructor(s: Room)
      ensures State() == s
    {
      entities, players := s.entities, s.players;
    }

    function State(): Room
      reads this
    {
      Room(entities, players)
    }

    /** The min-distance loop of `assignDuelTarget`, over the players in `order`. */
    method NearestRival(myId: string, house: string, me: Pos, order: seq<string>) returns (targetId: Option<string>)
      requires Listed(players, order)
      ensures targetId == Target(players, order, myId, house, me)
    {
      var minDist: Option<real> := None;
      targetId := None;
      ghost var best: Option<nat> := None;
      for i := 0 to |order|
        invariant best.Some? ==> best.value < |order|
        invariant Pick(players, order, i, myId, house, me, best) == Pick(players, order, 0, myId, house, me, None)
        invariant best.None? ==> targetId.None? && minDist.None?
        invariant best.Some? ==> targetId == Some(order[best.value]) && minDist == Some(DistSq(players[order[best.value]], me))
      {
        var id := order[i];
        var p := players[id];
        if id == myId || !p.inDuel {
          continue;
        }
        if p.house == house {
          continue;
        }
        var dx := p.x - me.x;
        var dy := p.y - me.y;
        var dist := dx * dx + dy * dy;
        assert dist == DistSq(p, me);
        if minDist.None? || dist < minDist.value {
          minDist := Some(dist);
          targetId := Some(id);
          best := Some(i);
        }
      }
    }

    /** `assignDuelTarget(entity, myId)`, in place. */
    method AssignDuelTarget(myId: string, order: seq<string>)
      requires Listed(players, order)
      requires myId in entities && entities[myId].body.Some? && entities[myId].ai.Some?
      modifies this
      ensures State() == Assign(old(State()), myId, order)
    {
      if myId !in players {
        return;
      }
      var entity := entities[myId];
      var targetId := NearestRival(myId, players[myId].house, entity.body.value, order);
      if targetId.Some? && targetId.value != "" {
        var ai := entity.ai.value.(targetId := targetId, state := "duel", timer := 0.0);
        entities := entities[myId := entity.(ai := Some(ai))];
      }
    }

    /** One turn of the `forEach` in `update`, in place. */
    method CheckEntity(id: string, order: seq<string>)
      requires Listed(players, order)
      modifies this
      ensures State() == Step(old(State()), id, order)
    {
      if id !in entities {
        return;
      }
      var entity := entities[id];
      if entity.body.None? {
        return;
      }
      var pos := entity.body.value;
      if id !in players {
        return;
      }
      var playerState := players[id];
      if InZone(pos) {
        if !playerState.inDuel {
          players := players[id := playerState.(inDuel := true, duelScore := 0)];
        } else {
          assert players == players[id := Zoned(playerState, true)];
        }
        if entity.ai.Some? && entity.ai.value.state != "duel" {
          AssignDuelTarget(id, order);
        }
      } else if playerState.inDuel {
        players := players[id := playerState.(inDuel := false, duelScore := 0)];
        if entity.ai.Some? {
          entities := entities[id := entity.(ai := Some(entity.ai.value.(state := "idle")))];
        }
      }
    }

    /** `update()`: every entity in `entityOrder` takes its turn; the players are searched in `order`. */
    method Update(entityOrder: seq<string>, order: seq<string>)
      requires Listed(players, order)
      modifies this
      ensures State() == Sweep(old(State()), entityOrder, 0, order)
    {
      for i := 0 to |entityOrder|
        invariant Listed(players, order)
        invariant Sweep(State(), entityOrder, i, order) == Sweep(old(State()), entityOrder, 0, order)
      {
        CheckEntity(entityOrder[i], order);
      }
    }
  }
}
