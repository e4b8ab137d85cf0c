/**
 * dist-server/server/WorldRoom.js: the rules the room itself enforces.
 * A cast is accepted only for a registered spell, from an entity with a
 * body, once its cooldown has passed since the caster's last accepted cast,
 * and spawns one projectile. Every tick the calendar is synced, the end of
 * an academic year crowns the house with strictly the most points (or
 * nobody) and resets the points, and the first tick of each game hour
 * rewards every student standing at the place the timetable wants them.
 * A move message is cleaned into booleans and finite numbers, and a joining
 * client takes over the first free student of the house its skin picks.
 *
 * `Date.now()` is the parameter `now`, body positions are the entities'
 * `body` fields, `Math.sqrt` of a cast's aim is the parameter `unit`, and
 * the database session read on join is the parameter `db`. A prestige
 * reward is recorded as an `Award` (the `addPrestige` of
 * dist-server/server/systems/PrestigeSystem.js, modelled in `PrestigeDist`).
 */
module WorldRoom {
  import opened Wrappers
  import Strings
  import GameConfig
  import AiRoutine

  type Pos = AiRoutine.Pos
  type Spots = AiRoutine.Spots
  type Controls = AiRoutine.Controls

  /** The part of an AI component the room reads: the house and the routine spots. */
  datatype EchoAi = EchoAi(house: string, routineSpots: Option<Spots>)

  /**
   * An entity of `entities`: its body's position, AI and input components,
   * `player.sessionId`, and what a possession stores for restoring the slot.
   */
  datatype Ent = Ent(body: Option<Pos>, ai: Option<EchoAi>, player: Option<string>, input: Option<Controls>,
                     slotId: Option<string>, tempSpots: Option<Spots>, house: Option<string>)

  /** An `InventoryItem`. */
  datatype InvItem = InvItem(itemId: string, qty: int)

  /** The synced `Player` state, without the duel and velocity fields the room leaves at their defaults. */
  datatype Player = Player(id: string, username: string, house: string, skin: string, x: real, y: real,
                           personalPrestige: int, cardCollection: seq<int>, inventory: seq<InvItem>)

  /** A synced `Projectile`. */
  datatype Projectile = Projectile(id: string, spellId: string, x: real, y: real, vx: real, vy: real,
                                   ownerId: string, creationTime: int, maxRange: int)

  /** A `ChatMessage`. */
  datatype ChatMessage = ChatMessage(sender: string, text: string, timestamp: int)

  /** One `addPrestige(sessionId, amount)` call. */
  datatype Award = Award(sessionId: string, amount: int)

  /** The three house totals. */
  datatype Points = Points(ignis: int, axiom: int, vesper: int)

  /**
   * The room: `entities` with its iteration order, the synced state, the
   * cooldown table, and `lastRewardedHour` (a variable of the tick closure).
   */
  datatype Room = Room(entityOrder: seq<string>, entities: map<string, Ent>, players: map<string, Player>,
                       projectiles: map<string, Projectile>, lastCastTimes: map<string, int>,
                       messages: seq<ChatMessage>, points: Points, currentCourse: int, currentMonth: string,
                       lastRewardedHour: int, awards: seq<Award>)

  /** No key is listed twice. */
  predicate Distinct(s: seq<string>) {
    forall a, b :: 0 <= a < b < |s| ==> s[a] != s[b]
  }

  /** `order` is an insertion order of `entities`: each key once, and nothing else. */
  predicate Lists(order: seq<string>, entities: map<string, Ent>) {
    && Distinct(order)
    && (forall id :: id in order ==> id in entities)
    && (forall id :: id in entities ==> id in order)
  }

  /** The room's entity order lists its entities. */
  predicate Valid(s: Room) {
    Lists(s.entityOrder, s.entities)
  }

  // ---------------------------------------------------------------- casting

  /** A `SPELL_REGISTRY` entry: projectile speed in px/s and cooldown in ms. */
  datatype SpellConfig = SpellConfig(speed: real, cooldown: int)

  /** `SPELL_REGISTRY` of dist-server/shared/items/SpellRegistry.js. */
  const SpellRegistry: map<string, SpellConfig> :=
    map["triangle" := SpellConfig(400.0, 500), "square" := SpellConfig(400.0, 500), "circle" := SpellConfig(400.0, 500)]

  const MaxRange: int := 600

  /** The names every plain JavaScript object inherits from `Object.prototype`. */
  const ObjectPrototypeKeys: set<string> := {
    "constructor", "__proto__", "toString", "toLocaleString", "valueOf", "hasOwnProperty",
    "isPrototypeOf", "propertyIsEnumerable", "__defineGetter__", "__defineSetter__",
    "__lookupGetter__", "__lookupSetter__"}

  /** What `SPELL_REGISTRY[spellId]` yields: an entry, an inherited member (truthy, without `cooldown`), or `undefined`. */
  datatype Lookup = Own(config: SpellConfig) | Inherited | Missing

  function LookupAsWritten(spellId: string): Lookup {
    if spellId in SpellRegistry then Own(SpellRegistry[spellId])
    else if spellId in ObjectPrototypeKeys then Inherited
    else Missing
  }

  /** `lastCastTimes.get(sessionId) || 0`. */
  function LastCast(times: map<string, int>, sessionId: string): int {
    if sessionId in times then times[sessionId] else 0
  }

  /**
   * The gate of `handleCast` as written: a missing entry stops the cast, and
   * so does a cooldown not yet over; for an inherited member `cooldown` is
   * `undefined`, `now - lastCast < undefined` is false, and the cast goes on.
   */
  predicate AcceptsAsWritten(spellId: string, now: int, lastCast: int) {
    match LookupAsWritten(spellId)
    case Own(c) => !(now - lastCast < c.cooldown)
    case Inherited => true
    case Missing => false
  }

  /** A client that names `toString` as its spell passes the gate whenever it casts, though no such spell exists. */
  lemma AsWrittenAcceptsInherited(now: int, lastCast: int)
    ensures "toString" !in SpellRegistry && AcceptsAsWritten("toString", now, lastCast)
  {
    assert "toString" in ObjectPrototypeKeys;
  }

  /** The gate as intended: a registered spell whose cooldown has passed. */
  predicate Accepts(spellId: string, now: int, lastCast: int) {
    spellId in SpellRegistry && now - lastCast >= SpellRegistry[spellId].cooldown
  }

  /** The intended gate agrees with the written one on every registered spell and rejects every other name. */
  lemma AcceptsSpec(spellId: string, now: int, lastCast: int)
    ensures Accepts(spellId, now, lastCast) ==> spellId in SpellRegistry
    ensures spellId in SpellRegistry ==> (Accepts(spellId, now, lastCast) <==> AcceptsAsWritten(spellId, now, lastCast))
    ensures spellId !in SpellRegistry && spellId !in ObjectPrototypeKeys ==> !AcceptsAsWritten(spellId, now, lastCast)
  {
  }

  /** `proj_<sessionId>_<now>`. */
  function ProjectileId(sessionId: string, now: int): string {
    "proj_" + sessionId + "_" + Strings.IntToString(now)
  }

  /** One caster's projectiles cast at different times have different ids. */
  lemma ProjectileIdsDiffer(sessionId: string, t1: int, t2: int)
    requires t1 != t2
    ensures ProjectileId(sessionId, t1) != ProjectileId(sessionId, t2)
  {
    var prefix := "proj_" + sessionId + "_";
    if ProjectileId(sessionId, t1) == ProjectileId(sessionId, t2) {
      var a, b := Strings.IntToString(t1), Strings.IntToString(t2);
      assert ProjectileId(sessionId, t1) == prefix + a;
      assert ProjectileId(sessionId, t2) == prefix + b;
      assert a == (prefix + a)[|prefix|..];
      assert b == (prefix + b)[|prefix|..];
      Strings.ParseIntOfInt(t1);
      Strings.ParseIntOfInt(t2);
    }
  }

  /**
   * The projectile of an accepted cast: at the caster's body, owned by the
   * caster, created now with range 600, flying at the spell's speed along
   * the aim `unit` (the aim divided by its length), or straight right at
   * that speed when the aim is zero.
   */
  function NewProjectile(sessionId: string, spellId: string, at: Pos, vx: real, vy: real, unit: Pos, now: int): Projectile
    requires spellId in SpellRegistry
  {
    var speed := SpellRegistry[spellId].speed;
    var aimed := vx * vx + vy * vy > 0.0;
    Projectile(ProjectileId(sessionId, now), spellId, at.x, at.y,
               if aimed then unit.x * speed else speed, if aimed then unit.y * speed else 0.0,
               sessionId, now, MaxRange)
  }

  /** `handleCast(sessionId, spellId, vx, vy)` at time `now`, with the intended gate. */
  function Cast(s: Room, sessionId: string, spellId: string, vx: real, vy: real, unit: Pos, now: int): Room {
    if sessionId !in s.entities || s.entities[sessionId].body.None? then s
    else if !Accepts(spellId, now, LastCast(s.lastCastTimes, sessionId)) then s
    else
      var p := NewProjectile(sessionId, spellId, s.entities[sessionId].body.value, vx, vy, unit, now);
      s.(lastCastTimes := s.lastCastTimes[sessionId := now], projectiles := s.projectiles[p.id := p])
  }

  /**
   * A cast from an entity without a body, of an unregistered spell, or
   * within the cooldown of the caster's last accepted cast changes nothing
   * (the last-cast time included). An accepted one records `now` as the
   * caster's last cast and adds exactly one projectile, `proj_<id>_<now>`,
   * owned by the caster, at its body, with range 600 and creation time now.
   */
  lemma CastSpec(s: Room, sessionId: string, spellId: string, vx: real, vy: real, unit: Pos, now: int)
    ensures var t := Cast(s, sessionId, spellId, vx, vy, unit, now);
      && t.entities == s.entities && t.players == s.players && t.messages == s.messages && t.awards == s.awards
      && (sessionId !in s.entities || s.entities[sessionId].body.None? || spellId !in SpellRegistry ==> t == s)
      && (spellId in SpellRegistry && now - LastCast(s.lastCastTimes, sessionId) < SpellRegistry[spellId].cooldown ==> t == s)
      && (t != s ==>
            && sessionId in s.entities && s.entities[sessionId].body.Some? && spellId in SpellRegistry
            && now - LastCast(s.lastCastTimes, sessionId) >= SpellRegistry[spellId].cooldown
            && t.lastCastTimes == s.lastCastTimes[sessionId := now]
            && var id := ProjectileId(sessionId, now);
               && t.projectiles.Keys == s.projectiles.Keys + {id}
               && (forall k :: k in s.projectiles && k != id ==> t.projectiles[k] == s.projectiles[k])
               && t.projectiles[id].ownerId == sessionId && t.projectiles[id].spellId == spellId
               && t.projectiles[id].maxRange == 600 && t.projectiles[id].creationTime == now
               && t.projectiles[id].x == s.entities[sessionId].body.value.x
               && t.projectiles[id].y == s.entities[sessionId].body.value.y)
  {
  }

  /** After an accepted cast, another cast by the same client less than 500 ms later is rejected. */
  lemma CastCooldown(s: Room, sessionId: string, spellId: string, vx: real, vy: real, unit: Pos, now: int,
                     spell2: string, vx2: real, vy2: real, unit2: Pos, later: int)
    requires Cast(s, sessionId, spellId, vx, vy, unit, now) != s
    requires now <= later < now + 500
    ensures var t := Cast(s, sessionId, spellId, vx, vy, unit, now);
      Cast(t, sessionId, spell2, vx2, vy2, unit2, later) == t
  {
    var t := Cast(s, sessionId, spellId, vx, vy, unit, now);
    CastSpec(s, sessionId, spellId, vx, vy, unit, now);
    assert LastCast(t.lastCastTimes, sessionId) == now;
  }

  // ------------------------------------------------------------ year end

  /** One entry of the `scores` array. */
  datatype Score = Score(name: string, score: int)

  /**
   * One step of the stable insertion sort that stands for
   * `scores.sort((a, b) => b.score - a.score)`: `x` goes after every entry
   * scoring at least as much, so higher scores come first and equal ones
   * keep their order.
   */
  function InsertByScore(x: Score, t: seq<Score>): (r: seq<Score>)
    ensures |r| == |t| + 1
  {
    if |t| == 0 then [x]
    else if t[0].score < x.score then [x] + t
    else [t[0]] + InsertByScore(x, t[1..])
  }

  /** The sort: each entry in turn is inserted after those before it. */
  function SortByScore(s: seq<Score>): (r: seq<Score>)
    ensures |r| == |s|
  {
    if |s| == 0 then [] else InsertByScore(s[|s| - 1], SortByScore(s[..|s| - 1]))
  }

  /** `scores`, sorted. */
  function Ranking(p: Points): seq<Score> {
    SortByScore([Score("IGNIS", p.ignis), Score("AXIOM", p.axiom), Score("VESPER", p.vesper)])
  }

  /** The name the cup goes to: the top house if it beats the runner-up, else "Tie". */
  function CupWinner(p: Points): string {
    var r := Ranking(p);
    if r[0].score > r[1].score then r[0].name else "Tie"
  }

  /**
   * A house wins the cup exactly when its points strictly exceed both
   * others'; otherwise, when two or three houses share the top, it is "Tie".
   */
  lemma CupWinnerSpec(p: Points)
    ensures CupWinner(p) == "IGNIS" <==> p.ignis > p.axiom && p.ignis > p.vesper
    ensures CupWinner(p) == "AXIOM" <==> p.axiom > p.ignis && p.axiom > p.vesper
    ensures CupWinner(p) == "VESPER" <==> p.vesper > p.ignis && p.vesper > p.axiom
    ensures CupWinner(p) == "Tie" <==> (!(p.ignis > p.axiom && p.ignis > p.vesper)
      && !(p.axiom > p.ignis && p.axiom > p.vesper) && !(p.vesper > p.ignis && p.vesper > p.axiom))
  {
    var i, a, v := Score("IGNIS", p.ignis), Score("AXIOM", p.axiom), Score("VESPER", p.vesper);
    RankingUnfolds(p);
    if p.ignis >= p.axiom {
      assert InsertByScore(a, [i]) == [i, a];
      InsertIntoTwo(v, i, a);
    } else {
      assert InsertByScore(a, [i]) == [a, i];
      InsertIntoTwo(v, a, i);
    }
  }

  /** The sort of the three scores inserts, in turn, ignis, axiom and vesper. */
  lemma RankingUnfolds(p: Points)
    ensures var i, a, v := Score("IGNIS", p.ignis), Score("AXIOM", p.axiom), Score("VESPER", p.vesper);
      Ranking(p) == InsertByScore(v, InsertByScore(a, [i]))
  {
    var i, a, v := Score("IGNIS", p.ignis), Score("AXIOM", p.axiom), Score("VESPER", p.vesper);
    var s := [i, a, v];
    assert s[..2] == [i, a];
    assert [i, a][..1] == [i];
    assert [i][..0] == [];
    assert SortByScore([i]) == InsertByScore(i, SortByScore([])) == [i];
    assert SortByScore([i, a]) == InsertByScore(a, SortByScore([i]));
    assert SortByScore(s) == InsertByScore(v, SortByScore([i, a]));
  }

  /** Where a third score lands among two sorted ones. */
  lemma InsertIntoTwo(z: Score, x: Score, y: Score)
    requires x.score >= y.score
    ensures var r := InsertByScore(z, [x, y]);
      && (z.score > x.score ==> r == [z, x, y])
      && (x.score >= z.score > y.score ==> r == [x, z, y])
      && (y.score >= z.score ==> r == [x, y, z])
  {
    assert [x, y][1..] == [y];
    assert [y][1..] == [];
    if y.score >= z.score {
      assert InsertByScore(z, [y]) == [y] + InsertByScore(z, []);
    }
  }

  /**
   * The calendar part of a tick: the month is synced, and when the course
   * has moved on, the headmaster announces the cup winner, the three point
   * totals restart at 0 and the course is updated.
   */
  function Calendar(s: Room, progress: GameConfig.Progress, now: int): Room {
    var s1 := s.(currentMonth := progress.currentMonth);
    if s.currentCourse < progress.currentCourse then
      var msg := ChatMessage("HEADMASTER", "THE ACADEMIC YEAR ENDS! The winner of the Cup is: " + CupWinner(s.points) + "!", now);
      s1.(messages := s.messages + [msg], points := Points(0, 0, 0), currentCourse := progress.currentCourse)
    else s1
  }

  /** A year end resets every total to 0 and adds the one announcement; otherwise only the month can change. */
  lemma CalendarSpec(s: Room, progress: GameConfig.Progress, now: int)
    ensures var t := Calendar(s, progress, now);
      && t.currentMonth == progress.currentMonth && t.entities == s.entities && t.players == s.players
      && (s.currentCourse < progress.currentCourse ==>
            && t.points == Points(0, 0, 0) && t.currentCourse == progress.currentCourse
            && |t.messages| == |s.messages| + 1 && t.messages[..|s.messages|] == s.messages
            && t.messages[|s.messages|].sender == "HEADMASTER")
      && (s.currentCourse >= progress.currentCourse ==>
            t == s.(currentMonth := progress.currentMonth))
  {
    if s.currentCourse < progress.currentCourse {
      var t := Calendar(s, progress, now);
      assert t.messages[..|s.messages|] == s.messages;
    }
  }

  // ------------------------------------------------------- hourly rewards

  const RewardRadius: real := 50.0
  const RewardAmount: int := 5

  /** Where the timetable wants a student at `hour`: breakfast 7, class 8-9 and 17-18, dinner 19-20, else bed. */
  function RewardSpot(hour: int, spots: Spots): Pos {
    if 7 <= hour < 8 then spots.eat
    else if 8 <= hour < 10 then spots.classroom
    else if 19 <= hour < 21 then spots.eat
    else if 17 <= hour < 19 then spots.classroom
    else spots.sleep
  }

  /** `entity.ai?.routineSpots || entity.tempSpots`. */
  function SpotsOf(e: Ent): Option<Spots> {
    if e.ai.Some? && e.ai.value.routineSpots.Some? then e.ai.value.routineSpots else e.tempSpots
  }

  /** The entity has spots and a body, and the body is within 50 px of the hour's spot. */
  predicate Rewarded(e: Ent, hour: int) {
    && SpotsOf(e).Some? && e.body.Some?
    && var target := RewardSpot(hour, SpotsOf(e).value);
       var dx, dy := target.x - e.body.value.x, target.y - e.body.value.y;
       dx * dx + dy * dy < RewardRadius * RewardRadius
  }

  /** Every listed key is an entity. */
  predicate Keyed(order: seq<string>, entities: map<string, Ent>) {
    forall k :: 0 <= k < |order| ==> order[k] in entities
  }

  /** The awards of the `forEach` over the first `n` entities, in order. */
  function RewardsOf(order: seq<string>, entities: map<string, Ent>, n: nat, hour: int): seq<Award>
    requires Keyed(order, entities) && n <= |order|
  {
    if n == 0 then []
    else
      var last := if Rewarded(entities[order[n - 1]], hour) then [Award(order[n - 1], RewardAmount)] else [];
      RewardsOf(order, entities, n - 1, hour) + last
  }

  /**
   * The awards are 5 points each, one for every listed entity standing at
   * its spot and none for any other, in iteration order.
   */
  lemma {:induction false} RewardsOfSpec(order: seq<string>, entities: map<string, Ent>, n: nat, hour: int)
    requires Keyed(order, entities) && n <= |order|
    ensures var r := RewardsOf(order, entities, n, hour);
      && |r| <= n
      && (forall a :: a in r ==> a.amount == RewardAmount && exists k :: 0 <= k < n && order[k] == a.sessionId && Rewarded(entities[order[k]], hour))
      && (forall k :: 0 <= k < n && Rewarded(entities[order[k]], hour) ==> Award(order[k], RewardAmount) in r)
  {
    if n > 0 {
      RewardsOfSpec(order, entities, n - 1, hour);
    }
  }

  /** The reward part of a tick: only when the game hour differs from the last rewarded one. */
  function Reward(s: Room, hour: int): Room
    requires Keyed(s.entityOrder, s.entities)
  {
    if hour == s.lastRewardedHour then s
    else s.(lastRewardedHour := hour, awards := s.awards + RewardsOf(s.entityOrder, s.entities, |s.entityOrder|, hour))
  }

  /** Rewards are handed out once per hour: a second tick in the same hour gives nothing more. */
  lemma RewardOncePerHour(s: Room, hour: int)
    requires Keyed(s.entityOrder, s.entities)
    ensures Reward(s, hour).lastRewardedHour == hour
    ensures Reward(Reward(s, hour), hour) == Reward(s, hour)
  {
  }

  /** A tick at time `now`, as far as the room itself goes: calendar, then rewards. */
  function Tick(s: Room, worldStartTime: int, now: nat): Room
    requires Keyed(s.entityOrder, s.entities)
  {
    Reward(Calendar(s, GameConfig.GetAcademicProgress(worldStartTime, now), now), GameConfig.GetGameHour(now))
  }

  // --------------------------------------------------------------- moving

  /**
   * The JavaScript values a move message can carry; an object is seen
   * through its `x` and `y`, an array through its elements.
   */
  datatype JsValue =
    | JUndefined | JNull | JBool(b: bool) | JNum(n: real) | JNaN | JStr(s: string)
    | JObject(x: JsValue, y: JsValue)
    | JArray(elems: seq<JsValue>)

  /** `!!v`. */
  predicate Truthy(v: JsValue) {
    match v
    case JUndefined => false
    case JNull => false
    case JBool(b) => b
    case JNum(n) => n != 0.0
    case JNaN => false
    case JStr(s) => s != ""
    case JObject(_, _) => true
    case JArray(_) => true
  }

  /** `t` without a leading sign. */
  function Unsigned(t: string): string {
    if |t| > 0 && (t[0] == '-' || t[0] == '+') then t[1..] else t
  }

  /** An optionally signed run of decimal digits. */
  predicate IsDecimalInteger(t: string) {
    |Unsigned(t)| > 0 && forall k :: 0 <= k < |Unsigned(t)| ==> Strings.DigitValue(Unsigned(t)[k], 10).Some?
  }

  /** `Number(s)`, for blank strings and decimal integers; `None` is `NaN`. */
  function StringToNumber(s: string): Option<real> {
    var t := Strings.Trim(s);
    if t == "" then Some(0.0)
    else if IsDecimalInteger(t) then
      var v := Strings.DigitsValue(Unsigned(t), 10) as real;
      Some(if t[0] == '-' then -v else v)
    else None
  }

  /**
   * `Number(v)`; `None` is `NaN`. An object reads as "[object Object]";
   * an array reads as its elements joined by commas, where `undefined`
   * and `null` print as nothing: a comma makes `NaN`, so only an empty or
   * one-element array can give a number.
   */
  function ToNumber(v: JsValue): Option<real> {
    match v
    case JUndefined => None
    case JNull => Some(0.0)
    case JBool(b) => Some(if b then 1.0 else 0.0)
    case JNum(n) => Some(n)
    case JNaN => None
    case JStr(s) => StringToNumber(s)
    case JObject(_, _) => None
    case JArray(es) =>
      if |es| == 0 then Some(0.0)
      else if |es| > 1 then None
      else if es[0].JUndefined? || es[0].JNull? then Some(0.0)
      else if es[0].JBool? then None
      else ToNumber(es[0])
  }

  /**
   * `Number` of an array: `[]` is 0, a lone number, string or array is read
   * as that element on its own, a lone boolean is `NaN` (it prints as
   * "true" or "false"), and two or more elements are `NaN`.
   */
  lemma ArrayToNumber(es: seq<JsValue>)
    ensures |es| == 0 ==> ToNumber(JArray(es)) == Some(0.0)
    ensures |es| >= 2 ==> ToNumber(JArray(es)) == None
    ensures |es| == 1 && (es[0].JNum? || es[0].JNaN? || es[0].JStr? || es[0].JArray?) ==>
      ToNumber(JArray(es)) == ToNumber(es[0])
    ensures |es| == 1 && es[0].JBool? ==> ToNumber(JArray(es)) == None != ToNumber(es[0])
    ensures |es| == 1 && (es[0].JUndefined? || es[0].JNull?) ==> ToNumber(JArray(es)) == Some(0.0)
  {
  }

  /** A move whose analog direction is `{x: [0.5], y: []}` stores (0.5, 0). */
  lemma SanitizeArrayFields(m: MoveMsg)
    requires m.analogDir == JObject(JArray([JNum(0.5)]), JArray([]))
    ensures Sanitize(m).analog == Some(AiRoutine.Pos(0.5, 0.0))
  {
  }

  /** `Number(v) || 0`. */
  function OrZero(v: JsValue): real {
    match ToNumber(v)
    case None => 0.0
    case Some(n) => n
  }

  /** `v.x` and `v.y`: an object's fields, `undefined` on anything else. */
  function PropX(v: JsValue): JsValue {
    if v.JObject? then v.x else JUndefined
  }

  function PropY(v: JsValue): JsValue {
    if v.JObject? then v.y else JUndefined
  }

  /** A move message. */
  datatype MoveMsg = MoveMsg(left: JsValue, right: JsValue, up: JsValue, down: JsValue, analogDir: JsValue)

  /** The input the move handler stores: four booleans, and an analog direction of numbers or none. */
  function Sanitize(m: MoveMsg): (c: Controls)
    ensures c.left == Truthy(m.left) && c.right == Truthy(m.right) && c.up == Truthy(m.up) && c.down == Truthy(m.down)
    ensures c.analog.None? <==> !Truthy(m.analogDir)
    ensures c.analog.Some? && ToNumber(PropX(m.analogDir)).None? ==> c.analog.value.x == 0.0
    ensures c.analog.Some? && ToNumber(PropY(m.analogDir)).None? ==> c.analog.value.y == 0.0
    ensures c.analog.Some? && ToNumber(PropX(m.analogDir)).Some? ==> c.analog.value.x == ToNumber(PropX(m.analogDir)).value
    ensures c.analog.Some? && ToNumber(PropY(m.analogDir)).Some? ==> c.analog.value.y == ToNumber(PropY(m.analogDir)).value
  {
    AiRoutine.Controls(Truthy(m.left), Truthy(m.right), Truthy(m.up), Truthy(m.down),
      if Truthy(m.analogDir) then Some(AiRoutine.Pos(OrZero(PropX(m.analogDir)), OrZero(PropY(m.analogDir)))) else None)
  }

  /** The message a well-behaved client sends for an input. */
  function Encode(c: Controls): MoveMsg {
    MoveMsg(JBool(c.left), JBool(c.right), JBool(c.up), JBool(c.down),
      match c.analog
      case None => JUndefined
      case Some(p) => JObject(JNum(p.x), JNum(p.y)))
  }

  /** Cleaning passes a well-formed message through: the stored input is the one that was encoded. */
  lemma SanitizeEncode(c: Controls)
    ensures Sanitize(Encode(c)) == c
  {
  }

  /** Cleaning is a projection: cleaning the encoding of a cleaned message gives the same input back. */
  lemma SanitizeIdempotent(m: MoveMsg)
    ensures Sanitize(Encode(Sanitize(m))) == Sanitize(m)
  {
    SanitizeEncode(Sanitize(m));
  }

  /** The `move` handler: only an entity with an input component takes the cleaned input. */
  function Move(s: Room, sessionId: string, m: MoveMsg): (t: Room)
    ensures t.entities.Keys == s.entities.Keys && t.entityOrder == s.entityOrder
    ensures sessionId !in s.entities || s.entities[sessionId].input.None? ==> t == s
    ensures sessionId in s.entities && s.entities[sessionId].input.Some? ==>
      t == s.(entities := s.entities[sessionId := s.entities[sessionId].(input := Some(Sanitize(m)))])
  {
    if sessionId in s.entities && s.entities[sessionId].input.Some? then
      s.(entities := s.entities[sessionId := s.entities[sessionId].(input := Some(Sanitize(m)))])
    else s
  }

  // -------------------------------------------------------------- joining

  /** The house a skin asks for: one naming red is ignis, else one naming blue is axiom, else vesper. */
  function HouseForSkin(skin: Option<string>): (h: string)
    ensures h == "ignis" || h == "axiom" || h == "vesper"
  {
    if skin.Some? && Strings.Contains(skin.value, "red") then "ignis"
    else if skin.Some? && Strings.Contains(skin.value, "blue") then "axiom"
    else "vesper"
  }

  /** An AI-driven student of `house` that no `sess_` session holds. */
  predicate FreeSlot(e: Ent, house: string) {
    e.ai.Some? && !(e.player.Some? && Strings.StartsWith(e.player.value, "sess_")) && e.ai.value.house == house
  }

  /** The first free slot of `house` listed at or after `i`. */
  function FirstSlot(order: seq<string>, entities: map<string, Ent>, house: string, i: nat): (r: Option<nat>)
    requires Keyed(order, entities) && i <= |order|
    ensures r.Some? ==> (i <= r.value < |order| && FreeSlot(entities[order[r.value]], house)
      && forall k :: i <= k < r.value ==> !FreeSlot(entities[order[k]], house))
    ensures r.None? ==> forall k :: i <= k < |order| ==> !FreeSlot(entities[order[k]], house)
    decreases |order| - i
  {
    if i == |order| then None
    else if FreeSlot(entities[order[i]], house) then Some(i)
    else FirstSlot(order, entities, house, i + 1)
  }

  /** A database inventory row. */
  datatype DbItem = DbItem(itemId: string, count: int)

  /** What `PlayerService.initializeSession` hands back: the stored prestige (0 for none) and inventory. */
  datatype DbPlayer = DbPlayer(prestige: int, inventory: Option<seq<DbItem>>)

  /** The inventory rows as `InventoryItem`s, in order. */
  function InventoryOf(items: seq<DbItem>): seq<InvItem> {
    if |items| == 0 then []
    else InventoryOf(items[..|items| - 1]) + [InvItem(items[|items| - 1].itemId, items[|items| - 1].count)]
  }

  /** The inventory copies every row: same length, and row `k`'s id and count. */
  lemma {:induction false} InventoryOfSpec(items: seq<DbItem>)
    ensures |InventoryOf(items)| == |items|
    ensures forall k :: 0 <= k < |items| ==> InventoryOf(items)[k] == InvItem(items[k].itemId, items[k].count)
  {
    if |items| > 0 {
      InventoryOfSpec(items[..|items| - 1]);
    }
  }

  /** The legacy card number of a `card_…` id: `parseInt` of the text between the first and second `_`. */
  function CardOf(itemId: string): Option<int> {
    if Strings.StartsWith(itemId, "card_") then
      var rest := itemId[5..];
      assert itemId == "card" + ['_'] + rest;
      Strings.SplitFirst("card", '_', rest);
      Strings.ParseInt(Strings.Split(itemId, '_')[1])
    else None
  }

  /** `card_<n>` is card `n`, and an id not starting with `card_` is no card. */
  lemma CardOfSpec(n: nat, itemId: string)
    ensures CardOf("card_" + Strings.NatToString(n)) == Some(n)
    ensures !Strings.StartsWith(itemId, "card_") ==> CardOf(itemId) == None
  {
    var digits := Strings.NatToString(n);
    var id := "card_" + digits;
    assert id[..5] == "card_";
    assert id[5..] == digits;
    assert '_' !in digits;
    Strings.SplitFirst("card", '_', digits);
    assert id == "card" + ['_'] + digits;
    Strings.SplitNone(digits, '_');
    Strings.ParseIntOfNat(n);
  }

  /** The legacy card numbers of the rows, in order, for every row whose number parses. */
  function CardsOf(items: seq<DbItem>): seq<int> {
    if |items| == 0 then []
    else
      var last := match CardOf(items[|items| - 1].itemId) case None => [] case Some(c) => [c];
      CardsOf(items[..|items| - 1]) + last
  }

  /** The new player state of a possession, before it is stored. */
  function NewPlayer(sessionId: string, username: string, skin: Option<string>, house: string, at: Pos, db: DbPlayer): Player {
    var items := if db.inventory.Some? then db.inventory.value else [];
    Player(sessionId, username, if house == "" then "ignis" else house,
           if skin.Some? && skin.value != "" then skin.value else "player_idle",
           at.x, at.y, db.prestige, CardsOf(items), InventoryOf(items))
  }

  /** `order` without `x`. */
  function Without(order: seq<string>, x: string): (r: seq<string>)
    ensures forall y :: y in r <==> y in order && y != x
    ensures Distinct(order) ==> Distinct(r)
    ensures |r| <= |order|
  {
    if |order| == 0 then []
    else
      var rest := Without(order[1..], x);
      assert forall y :: y in order[1..] ==> y in order;
      assert Distinct(order) ==> order[0] !in order[1..];
      if order[0] == x then rest else [order[0]] + rest
  }

  /** The key order after `delete(from)` then `set(to, …)`: a new key goes last, an existing one keeps its place. */
  function Rekey(order: seq<string>, from: string, to: string): seq<string> {
    var o := Without(order, from);
    if to in o then o else o + [to]
  }

  /** The possessed student, as the room keeps it: under the session, without AI, with a fresh input and the slot noted. */
  function Possessed(e: Ent, sessionId: string, slotId: string): Ent
    requires e.ai.Some?
  {
    e.(player := Some(sessionId), ai := None, input := Some(AiRoutine.Controls(false, false, false, false, None)),
       slotId := Some(slotId), tempSpots := e.ai.value.routineSpots, house := Some(e.ai.value.house))
  }

  /**
   * `onJoin`: the room after the join, and whether the client stays. With no
   * free slot, an empty slot id, or a slot without a `player` component (a
   * `TypeError`) the client leaves and nothing changes. Otherwise the slot
   * is re-keyed to the session; a slot without a body then throws and the
   * client leaves with the entity already re-keyed; with a body, the player
   * state moves from the slot id to the session id.
   */
  function Join(s: Room, sessionId: string, skin: Option<string>, username: string, db: DbPlayer): (Room, bool)
    requires Keyed(s.entityOrder, s.entities)
  {
    var house := HouseForSkin(skin);
    match FirstSlot(s.entityOrder, s.entities, house, 0)
    case None => (s, false)
    case Some(k) =>
      var slotId := s.entityOrder[k];
      var e := s.entities[slotId];
      if slotId == "" || e.player.None? then (s, false)
      else
        var e2 := Possessed(e, sessionId, slotId);
        var s1 := s.(entityOrder := Rekey(s.entityOrder, slotId, sessionId), entities := (s.entities - {slotId})[sessionId := e2]);
        if e.body.None? then (s1, false)
        else (s1.(players := s.players[sessionId := NewPlayer(sessionId, username, skin, e.ai.value.house, e.body.value, db)] - {slotId}), true)
  }

  /** Re-keying one entity keeps the order an exact, repeat-free listing of the keys. */
  lemma RekeyLists(order: seq<string>, entities: map<string, Ent>, from: string, to: string, e: Ent)
    requires Lists(order, entities)
    ensures Lists(Rekey(order, from, to), (entities - {from})[to := e])
  {
    var o := Without(order, from);
    if to !in o {
      var o2 := o + [to];
      forall a, b | 0 <= a < b < |o2|
        ensures o2[a] != o2[b]
      {
        if b == |o| {
          assert o2[a] in o;
        } else {
          assert o2[a] == o[a] && o2[b] == o[b];
        }
      }
    }
  }

  /** A join keeps the entity order an exact, repeat-free listing of the entities. */
  lemma JoinKeepsValid(s: Room, sessionId: string, skin: Option<string>, username: string, db: DbPlayer)
    requires Valid(s)
    ensures Keyed(s.entityOrder, s.entities)
    ensures Valid(Join(s, sessionId, skin, username, db).0)
  {
    assert Keyed(s.entityOrder, s.entities);
    match FirstSlot(s.entityOrder, s.entities, HouseForSkin(skin), 0)
    case None =>
    case Some(k) =>
      var slotId := s.entityOrder[k];
      var e := s.entities[slotId];
      if slotId != "" && e.player.Some? {
        RekeyLists(s.entityOrder, s.entities, slotId, sessionId, Possessed(e, sessionId, slotId));
      }
  }

  /**
   * A client that stays has taken over the first free student of the house
   * its skin asks for: the session now keys the possessed entity; the slot
   * id keys no entity any more (unless it is the session id itself, a key
   * an echo never has); every other entity is as it was. With no free
   * student the room is left as it was and the client leaves.
   */
  lemma JoinSpec(s: Room, sessionId: string, skin: Option<string>, username: string, db: DbPlayer)
    requires Keyed(s.entityOrder, s.entities)
    ensures var (t, joined) := Join(s, sessionId, skin, username, db);
      && (FirstSlot(s.entityOrder, s.entities, HouseForSkin(skin), 0).None? ==> t == s && !joined)
      && (joined ==>
            && var k := FirstSlot(s.entityOrder, s.entities, HouseForSkin(skin), 0).value;
               var slotId := s.entityOrder[k];
               var e := s.entities[slotId];
               && FreeSlot(e, HouseForSkin(skin)) && e.body.Some?
               && (forall j :: 0 <= j < k ==> !FreeSlot(s.entities[s.entityOrder[j]], HouseForSkin(skin)))
               && t.entities == (s.entities - {slotId})[sessionId := Possessed(e, sessionId, slotId)]
               && (slotId != sessionId ==> slotId !in t.entities)
               && (forall id :: id in s.entities && id != slotId && id != sessionId ==> id in t.entities && t.entities[id] == s.entities[id]))
  {
  }

  /**
   * The player state of a client that stays moves from the slot id to the
   * session id: a new state with the student's house and the stored
   * prestige; every other player state is as it was.
   */
  lemma JoinPlayers(s: Room, sessionId: string, skin: Option<string>, username: string, db: DbPlayer)
    requires Keyed(s.entityOrder, s.entities)
    ensures var (t, joined) := Join(s, sessionId, skin, username, db);
      joined ==>
        var slotId := s.entityOrder[FirstSlot(s.entityOrder, s.entities, HouseForSkin(skin), 0).value];
        && slotId !in t.players
        && (slotId != sessionId ==>
              && sessionId in t.players && t.players[sessionId].id == sessionId
              && t.players[sessionId].house == HouseForSkin(skin) && t.players[sessionId].personalPrestige == db.prestige)
        && (forall id :: id in s.players && id != slotId && id != sessionId ==> id in t.players && t.players[id] == s.players[id])
  {
  }

  // ------------------------------------------------------------ the room

  /** The room's state and rules. */
  class WorldRoom {
    var entityOrder: seq<string>
    var entities: map<string, Ent>
    var players: map<string, Player>
    var projectiles: map<string, Projectile>
    var lastCastTimes: map<string, int>
    var messages: seq<ChatMessage>
    var points: Points
    var currentCourse: int
    var currentMonth: string
    var lastRewardedHour: int
    var awards: seq<Award>
    const worldStartTime: int

    /** `onCreate`, from state `s` and the clock at creation. */
    constructor(s: Room, worldStartTime: int)
      ensures State() == s && this.worldStartTime == worldStartTime
    {
      entityOrder, entities, players, projectiles, lastCastTimes := s.entityOrder, s.entities, s.players, s.projectiles, s.lastCastTimes;
      messages, points, currentCourse, currentMonth := s.messages, s.points, s.currentCourse, s.currentMonth;
      lastRewardedHour, awards := s.lastRewardedHour, s.awards;
      this.worldStartTime := worldStartTime;
    }

    function State(): Room
      reads this
    {
      Room(entityOrder, entities, players, projectiles, lastCastTimes, messages, points, currentCourse, currentMonth, lastRewardedHour, awards)
    }

    /** `handleCast(sessionId, spellId, vx, vy)` at time `now`, `unit` being the aim divided by its length. */
    method HandleCast(sessionId: string, spellId: string, vx: real, vy: real, unit: Pos, now: int)
      modifies this
      ensures State() == Cast(old(State()), sessionId, spellId, vx, vy, unit, now)
    {
      if sessionId !in entities || entities[sessionId].body.None? {
        return;
      }
      if spellId !in SpellRegistry {
        return;
      }
      var spellConfig := SpellRegistry[spellId];
      var lastCast := if sessionId in lastCastTimes then lastCastTimes[sessionId] else 0;
      if now - lastCast < spellConfig.cooldown {
        return;
      }
      ghost var s0 := State();
      assert lastCast == LastCast(lastCastTimes, sessionId) && Accepts(spellId, now, lastCast);
      var pos := entities[sessionId].body.value;
      var p := Launch(sessionId, spellId, pos, vx, vy, unit, now);
      lastCastTimes := lastCastTimes[sessionId := now];
      projectiles := projectiles[p.id := p];
      assert State() == s0.(lastCastTimes := s0.lastCastTimes[sessionId := now], projectiles := s0.projectiles[p.id := p]);
    }

    /** The projectile of an accepted cast: aimed along `unit` at the spell's speed, or straight right when the aim is zero. */
    method Launch(sessionId: string, spellId: string, pos: Pos, vx: real, vy: real, unit: Pos, now: int) returns (p: Projectile)
      requires spellId in SpellRegistry
      ensures p == NewProjectile(sessionId, spellId, pos, vx, vy, unit, now)
    {
      var spellConfig := SpellRegistry[spellId];
      var id := ProjectileId(sessionId, now);
      var vxOut := if vx * vx + vy * vy > 0.0 then unit.x * spellConfig.speed else spellConfig.speed;
      var vyOut := if vx * vx + vy * vy > 0.0 then unit.y * spellConfig.speed else 0.0;
      p := Projectile(id, spellId, pos.x, pos.y, vxOut, vyOut, sessionId, now, MaxRange);
    }

    /** The `forEach` of the hourly reward, appending one award per student at its spot. */
    method RewardStudents(hour: int)
      requires Keyed(entityOrder, entities)
      modifies this
      ensures State() == old(State()).(awards := awards)
      ensures awards == old(awards) + RewardsOf(entityOrder, entities, |entityOrder|, hour)
    {
      for i := 0 to |entityOrder|
        invariant entityOrder == old(entityOrder) && entities == old(entities)
        invariant awards == old(awards) + RewardsOf(entityOrder, entities, i, hour)
        invariant State() == old(State()).(awards := awards)
      {
        var entity := entities[entityOrder[i]];
        var spots := if entity.ai.Some? && entity.ai.value.routineSpots.Some? then entity.ai.value.routineSpots else entity.tempSpots;
        if spots.Some? && entity.body.Some? {
          var pos := entity.body.value;
          var target := RewardSpot(hour, spots.value);
          var dx, dy := target.x - pos.x, target.y - pos.y;
          if dx * dx + dy * dy < RewardRadius * RewardRadius {
            awards := awards + [Award(entityOrder[i], RewardAmount)];
          }
        }
      }
    }

    /** The room's own part of a simulation tick at time `now`. */
    method Simulate(now: nat)
      requires Keyed(entityOrder, entities)
      modifies this
      ensures State() == Tick(old(State()), worldStartTime, now)
    {
      var currentHour := GameConfig.GetGameHour(now);
      var progress := GameConfig.GetAcademicProgress(worldStartTime, now);
      SyncCalendar(progress, now);
      if currentHour != lastRewardedHour {
        lastRewardedHour := currentHour;
        RewardStudents(currentHour);
      }
    }

    /** The calendar sync and year-end check of a tick. */
    method SyncCalendar(progress: GameConfig.Progress, now: int)
      modifies this
      ensures State() == Calendar(old(State()), progress, now)
    {
      if currentMonth != progress.currentMonth {
        currentMonth := progress.currentMonth;
      }
      if currentCourse < progress.currentCourse {
        var winner := CupWinner(points);
        messages := messages + [ChatMessage("HEADMASTER", "THE ACADEMIC YEAR ENDS! The winner of the Cup is: " + winner + "!", now)];
        points := Points(0, 0, 0);
        currentCourse := progress.currentCourse;
      }
    }

    /** The `move` handler. */
    method HandleMove(sessionId: string, input: MoveMsg)
      modifies this
      ensures State() == Move(old(State()), sessionId, input)
    {
      if sessionId in entities && entities[sessionId].input.Some? {
        var left, right, up, down := Truthy(input.left), Truthy(input.right), Truthy(input.up), Truthy(input.down);
        var analogDir: Option<Pos> := None;
        if Truthy(input.analogDir) {
          analogDir := Some(AiRoutine.Pos(OrZero(PropX(input.analogDir)), OrZero(PropY(input.analogDir))));
        }
        entities := entities[sessionId := entities[sessionId].(input := Some(AiRoutine.Controls(left, right, up, down, analogDir)))];
      }
    }

    /** The slot search of `onJoin`: a `for … of` over the entities that stops at the first free slot. */
    method FindSlot(house: string) returns (slot: Option<nat>)
      requires Keyed(entityOrder, entities)
      ensures slot == FirstSlot(entityOrder, entities, house, 0)
    {
      slot := None;
      var i := 0;
      while i < |entityOrder|
        invariant 0 <= i <= |entityOrder|
        invariant FirstSlot(entityOrder, entities, house, i) == FirstSlot(entityOrder, entities, house, 0)
      {
        var ent := entities[entityOrder[i]];
        if ent.ai.Some? && !(ent.player.Some? && Strings.StartsWith(ent.player.value, "sess_")) {
          if ent.ai.value.house == house {
            slot := Some(i);
            return;
          }
        }
        i := i + 1;
      }
    }

    /** The `forEach` that hydrates a joining player's inventory and legacy album from the database rows. */
    method Hydrate(items: seq<DbItem>) returns (inventory: seq<InvItem>, cards: seq<int>)
      ensures inventory == InventoryOf(items) && cards == CardsOf(items)
    {
      inventory, cards := [], [];
      for i := 0 to |items|
        invariant inventory == InventoryOf(items[..i]) && cards == CardsOf(items[..i])
      {
        assert items[..i + 1][..i] == items[..i];
        inventory := inventory + [InvItem(items[i].itemId, items[i].count)];
        var cardId := CardOf(items[i].itemId);
        if cardId.Some? {
          cards := cards + [cardId.value];
        }
      }
      assert items[..|items|] == items;
    }

    /** `onJoin(client, options)`: whether the client stays. */
    method OnJoin(sessionId: string, skin: Option<string>, username: string, db: DbPlayer) returns (joined: bool)
      requires Keyed(entityOrder, entities)
      modifies this
      ensures (State(), joined) == Join(old(State()), sessionId, skin, username, db)
    {
      var targetHouse := HouseForSkin(skin);
      var found := FindSlot(targetHouse);
      if found.None? {
        return false;
      }
      var slotId := entityOrder[found.value];
      var possessedEntity := entities[slotId];
      if slotId == "" || possessedEntity.player.None? {
        return false;
      }
      var house := possessedEntity.ai.value.house;
      var e2 := possessedEntity.(player := Some(sessionId), ai := None, input := Some(AiRoutine.Controls(false, false, false, false, None)),
                                 slotId := Some(slotId), tempSpots := possessedEntity.ai.value.routineSpots, house := Some(house));
      entityOrder := Rekey(entityOrder, slotId, sessionId);
      entities := (entities - {slotId})[sessionId := e2];
      if possessedEntity.body.None? {
        return false;
      }
      var pos := possessedEntity.body.value;
      var rows := if db.inventory.Some? then db.inventory.value else [];
      var inventory, cards := Hydrate(rows);
      var playerState := Player(sessionId, username, if house == "" then "ignis" else house,
                                if skin.Some? && skin.value != "" then skin.value else "player_idle",
                                pos.x, pos.y, db.prestige, cards, inventory);
      players := players[sessionId := playerState] - {slotId};
      joined := true;
    }
  }
}
