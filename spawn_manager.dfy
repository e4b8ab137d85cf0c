/**
 * src/server/managers/SpawnManager.ts: who lives in the school. It fills the
 * world with the 24 fixed students (eight per house), the teachers of the
 * map's NPC layer (or five hard-coded ones), and turns a leaving player into
 * an "echo" that the AI drives on, keeping at most 49 older echoes.
 *
 * Each spawned character is an ECS entity in `entities` and a schema
 * `Player` in `players`, both under the same key. Positions come from the
 * seat tables of `parseSeats` when the map registers a seat for the
 * character's seat number, and from fixed formulas otherwise.
 *
 * The physics body is its position and its `userData.sessionId`; the ECS
 * world list, the Rapier calls, `Math.random()` (the AI timers and the echo's
 * house) and `Date.now()` are parameters or left out. The iteration order of
 * `state.players` is the parameter `order`.
 */
module SpawnManager {
  import opened Wrappers
  import Strings
  import GameConfig
  import Tiled
  import MapParser
  import FixedSeats

  type Pos = MapParser.Pos

  /** `MAX_ECHOES`: the limit the echo count is brought below. */
  const MaxEchoes: nat := 50

  const Houses: seq<string> := ["ignis", "axiom", "vesper"]

  // ------------------------------------------------------------- entities

  /** A rigid body: where it is, and the `sessionId` of its `userData`. */
  datatype Body = Body(at: Pos, sessionId: string)

  datatype Controls = Controls(left: bool, right: bool, up: bool, down: bool)

  /** All four directions released. */
  const Released: Controls := Controls(false, false, false, false)

  /** The routine's three seats. */
  datatype Spots = Spots(sleep: Pos, classroom: Pos, eat: Pos)

  /** The `ai` component. */
  datatype Ai = Ai(state: string, timer: real, home: Pos, house: Option<string>, routineSpots: Option<Spots>)

  /** An ECS entity: its numeric `id`, body, input, facing, `player.sessionId` and AI. */
  datatype Entity = Entity(id: Option<int>, body: Option<Body>, input: Controls, facing: Option<Pos>,
                           player: Option<string>, ai: Option<Ai>)

  /** The fields of a schema `Player` that this manager writes. */
  datatype PlayerState = PlayerState(id: string, username: string, x: int, y: int, skin: string, house: string)

  /** The two maps the manager shares with the room. */
  datatype World = World(entities: map<string, Entity>, players: map<string, PlayerState>)

  predicate Distinct(s: seq<string>) {
    forall a, b :: 0 <= a < b < |s| ==> s[a] != s[b]
  }

  /** `order` is the iteration order of `players`: each key once, and nothing else. */
  predicate Listing(order: seq<string>, players: map<string, PlayerState>) {
    && Distinct(order)
    && (forall id :: id in order ==> id in players)
    && (forall id :: id in players ==> id in order)
  }

  // ------------------------------------------------------------- seats

  /** The seat number: `numericId − 1`, or 0 for a character without one. */
  function SeatId(numericId: Option<int>): int {
    if numericId.Some? then numericId.value - 1 else 0
  }

  /** The place within the house row: `(numericId − 1) % 8` with JavaScript's remainder, or 0. */
  function StudentIndex(numericId: Option<int>): int {
    if numericId.Some? then GameConfig.JsRem(numericId.value - 1, 8) else 0
  }

  /** `table.get(seatId) || fallback`: a registered seat wins (only a numeric `studentId` matches). */
  function Seat(table: map<Tiled.Value, Pos>, seatId: int, fallback: Pos): Pos {
    if Tiled.Int(seatId) in table then table[Tiled.Int(seatId)] else fallback
  }

  /**
   * The classroom seat without a registered one: row `(s % 24) div 8`, table
   * `((s % 24) % 8) div 2`, side `s % 2`, all with JavaScript's remainder and
   * `Math.floor`.
   */
  function ClassFallback(seatId: int): Pos {
    var k := GameConfig.JsRem(seatId, 24);
    var seatRow := k / 8;
    var seatCol := GameConfig.JsRem(k, 8) / 2;
    var seatSide := GameConfig.JsRem(seatId, 2);
    MapParser.Pos(1440 + seatCol * 96 + 16 + seatSide * 32, 1312 + seatRow * 64 + 40)
  }

  /** The great-hall row offset: ignis above, vesper below, anyone else on the centre line. */
  function HallOffset(house: Option<string>): int {
    if house == Some("ignis") then -64 else if house == Some("vesper") then 64 else 0
  }

  /** The great-hall seat without a registered one: `(index − 3.5)·32` from the hall is `32·index − 112`. */
  function EatFallback(studentIndex: int, house: Option<string>): Pos {
    MapParser.Pos(GameConfig.GreatHall.x + 32 * studentIndex - 112, GameConfig.GreatHall.y + HallOffset(house))
  }

  /** `house || 'ignis'`. */
  function HouseOrIgnis(house: Option<string>): string {
    if house.Some? && house.value != "" then house.value else "ignis"
  }

  /** The entity `createEchoEntity` stores under `id`. */
  function Spawned(seats: MapParser.Seats, id: string, x: int, y: int, house: Option<string>,
                   numericId: Option<int>, timer: real): Entity
  {
    var seatId := SeatId(numericId);
    var sleepPos := Seat(seats.bed, seatId, MapParser.Pos(x, y));
    var eatPos := Seat(seats.food, seatId, EatFallback(StudentIndex(numericId), house));
    var classPos := Seat(seats.classroom, seatId, ClassFallback(seatId));
    Entity(numericId, Some(Body(sleepPos, id)), Released, Some(MapParser.Pos(0, 1)), Some(id),
      Some(Ai("idle", timer, sleepPos, house, Some(Spots(sleepPos, classPos, eatPos)))))
  }

  /** The schema state `createEchoEntity` stores under `id`. */
  function SpawnedState(seats: MapParser.Seats, id: string, x: int, y: int, skin: string, username: string,
                        house: Option<string>, numericId: Option<int>): PlayerState
  {
    var sleepPos := Seat(seats.bed, SeatId(numericId), MapParser.Pos(x, y));
    PlayerState(id, username, sleepPos.x, sleepPos.y, skin, HouseOrIgnis(house))
  }

  /**
   * What a spawned character is: its body, its home, its bed and its schema
   * position are one place, the bed registered for its seat number if there
   * is one and the requested position otherwise; its other seats follow the
   * same rule with the formulas as fallback; entity and state carry its key.
   */
  lemma SpawnedSpec(seats: MapParser.Seats, id: string, x: int, y: int, skin: string, username: string,
                    house: Option<string>, numericId: Option<int>, timer: real)
    ensures var e, st := Spawned(seats, id, x, y, house, numericId, timer),
                         SpawnedState(seats, id, x, y, skin, username, house, numericId);
      var seatId := if numericId.Some? then numericId.value - 1 else 0;
      && e.body.Some? && e.ai.Some? && e.ai.value.routineSpots.Some?
      && var at, spots := e.body.value.at, e.ai.value.routineSpots.value;
      && (Tiled.Int(seatId) in seats.bed ==> at == seats.bed[Tiled.Int(seatId)])
      && (Tiled.Int(seatId) !in seats.bed ==> at == MapParser.Pos(x, y))
      && (Tiled.Int(seatId) in seats.classroom ==> spots.classroom == seats.classroom[Tiled.Int(seatId)])
      && (Tiled.Int(seatId) !in seats.classroom ==> spots.classroom == ClassFallback(seatId))
      && (Tiled.Int(seatId) in seats.food ==> spots.eat == seats.food[Tiled.Int(seatId)])
      && spots.sleep == at && e.ai.value.home == at
      && st.x == at.x && st.y == at.y
      && st.id == id && e.player == Some(id) && e.body.value.sessionId == id && e.id == numericId
      && e.ai.value.state == "idle" && e.ai.value.house == house
      && (house.None? ==> st.house == "ignis") && (house.Some? && house.value != "" ==> st.house == house.value)
  {
  }

  /** The fallback classroom seats are the ones the seat generator places. */
  lemma ClassFallbackMatchesMap(seatId: nat)
    requires seatId < 24
    ensures ClassFallback(seatId) == MapParser.Pos(FixedSeats.ClassSeat(seatId).x, FixedSeats.ClassSeat(seatId).y)
  {
    assert GameConfig.JsRem(seatId, 24) == seatId;
    assert GameConfig.JsRem(seatId, 8) == seatId % 8;
    assert GameConfig.JsRem(seatId, 2) == seatId % 2;
  }

  /** The fallback classroom seats repeat every 24 seats. */
  lemma ClassFallbackRepeats(seatId: nat)
    ensures ClassFallback(seatId) == ClassFallback(seatId % 24)
  {
    var q, r := seatId / 24, seatId % 24;
    assert GameConfig.JsRem(seatId, 24) == r;
    assert GameConfig.JsRem(r, 24) == r;
    assert seatId == 2 * (12 * q) + r;
    assert GameConfig.JsRem(seatId, 2) == GameConfig.JsRem(r, 2);
  }

  /**
   * Seat numbers below zero (a `numericId` of 0 or less) keep JavaScript's
   * negative remainders: seat −1 lands one table left of and one row above the first seat.
   */
  lemma ClassFallbackOfMinusOne()
    ensures ClassFallback(-1) == MapParser.Pos(1440 - 96 + 16 - 32, 1312 - 64 + 40)
  {
  }

  // ------------------------------------------------------------- spawning in bulk

  /** One `createEchoEntity` call of a spawn loop; `static` marks the teachers, whose AI is then told to stay put. */
  datatype Spawn = Spawn(id: string, x: int, y: int, skin: string, username: string,
                         house: Option<string>, numericId: Option<int>, stays: bool)

  /** A teacher's AI after the override: no routine, home at `home`, idle. */
  function Staticised(e: Entity, home: Pos): Entity {
    if e.ai.Some? then e.(ai := Some(e.ai.value.(routineSpots := None, home := home, state := "idle"))) else e
  }

  /** The entity one loop step leaves under the spawn's key. */
  function Placed(seats: MapParser.Seats, sp: Spawn, timer: real): Entity {
    var e := Spawned(seats, sp.id, sp.x, sp.y, sp.house, sp.numericId, timer);
    if sp.stays then Staticised(e, MapParser.Pos(sp.x, sp.y)) else e
  }

  /** One loop step: the entity and the state are stored under the spawn's key. */
  function Place(w: World, seats: MapParser.Seats, sp: Spawn, timer: real): World {
    World(w.entities[sp.id := Placed(seats, sp, timer)],
          w.players[sp.id := SpawnedState(seats, sp.id, sp.x, sp.y, sp.skin, sp.username, sp.house, sp.numericId)])
  }

  /** The world after the first `n` spawns of a loop, the k-th with AI timer `timers[k]`. */
  function Populate(w: World, seats: MapParser.Seats, spawns: seq<Spawn>, timers: seq<real>, n: nat): World
    requires n <= |spawns| && n <= |timers|
  {
    if n == 0 then w else Place(Populate(w, seats, spawns, timers, n - 1), seats, spawns[n - 1], timers[n - 1])
  }

  /** A loop adds exactly the keys of its spawns, to both maps. */
  lemma {:induction false} PopulateKeys(w: World, seats: MapParser.Seats, spawns: seq<Spawn>, timers: seq<real>, n: nat)
    requires n <= |spawns| && n <= |timers|
    ensures var r := Populate(w, seats, spawns, timers, n);
      forall id :: (id in r.entities <==> id in w.entities || exists j :: 0 <= j < n && spawns[j].id == id)
        && (id in r.players <==> id in w.players || exists j :: 0 <= j < n && spawns[j].id == id)
  {
    if n > 0 {
      PopulateKeys(w, seats, spawns, timers, n - 1);
    }
  }

  /** The last spawn under a key decides what is stored there. */
  lemma {:induction false} PopulateLatest(w: World, seats: MapParser.Seats, spawns: seq<Spawn>, timers: seq<real>, n: nat, k: nat)
    requires n <= |spawns| && n <= |timers| && k < n
    requires forall j :: k < j < n ==> spawns[j].id != spawns[k].id
    ensures var r, sp := Populate(w, seats, spawns, timers, n), spawns[k];
      && sp.id in r.entities && r.entities[sp.id] == Placed(seats, sp, timers[k])
      && sp.id in r.players
      && r.players[sp.id] == SpawnedState(seats, sp.id, sp.x, sp.y, sp.skin, sp.username, sp.house, sp.numericId)
  {
    if k < n - 1 {
      PopulateLatest(w, seats, spawns, timers, n - 1, k);
    }
  }

  /** Keys no spawn uses keep their entries. */
  lemma {:induction false} PopulateOthers(w: World, seats: MapParser.Seats, spawns: seq<Spawn>, timers: seq<real>, n: nat, id: string)
    requires n <= |spawns| && n <= |timers|
    requires forall j :: 0 <= j < n ==> spawns[j].id != id
    ensures var r := Populate(w, seats, spawns, timers, n);
      && (id in r.entities <==> id in w.entities) && (id in w.entities ==> r.entities[id] == w.entities[id])
      && (id in r.players <==> id in w.players) && (id in w.players ==> r.players[id] == w.players[id])
  {
    if n > 0 {
      PopulateOthers(w, seats, spawns, timers, n - 1, id);
    }
  }

  // ------------------------------------------------------------- students

  /** A house's dormitory: ignis's unless the house is axiom or vesper. */
  function Dorm(house: string): GameConfig.Point {
    if house == "axiom" then GameConfig.DormAxiom else if house == "vesper" then GameConfig.DormVesper else GameConfig.DormIgnis
  }

  /** The key `student_<house>_<i>`. */
  function StudentKey(house: string, i: nat): string {
    "student_" + house + "_" + Strings.NatToString(i)
  }

  /** The display name `<House> Student <i>`. */
  function StudentName(house: string, i: nat): string {
    Capitalised(house) + " Student " + Strings.NatToString(i)
  }

  function SkinFor(house: string): string {
    if house == "ignis" then "player_red" else if house == "axiom" then "player_blue" else "player_idle"
  }

  /** `toUpperCase` of one character, for the ASCII letters that house names use. */
  function UpperChar(c: char): char {
    if 'a' <= c <= 'z' then (c as int - 32) as char else c
  }

  /** `w.charAt(0).toUpperCase() + w.slice(1)`. */
  function Capitalised(w: string): string {
    if |w| == 0 then "" else [UpperChar(w[0])] + w[1..]
  }

  /** The k-th student of `spawnEchoes`: slot `k mod 8 + 1` of house `k div 8`, numeric id `k + 1`, bed `64·(k mod 8) − 224` from its dormitory. */
  function Student(k: nat): Spawn
    requires k < 24
  {
    var h, i := k / 8, k % 8 + 1;
    var house := Houses[h];
    Spawn(StudentKey(house, i), Dorm(house).x + 64 * (i - 1) - 224, Dorm(house).y,
      SkinFor(house), StudentName(house, i), Some(house), Some(k + 1), false)
  }

  const Students: seq<Spawn> := seq(24, k requires 0 <= k < 24 => Student(k))

  /** The student in slot `i` of house `h`, as the nested loops of `spawnEchoes` build it. */
  lemma StudentAt(h: nat, i: nat)
    requires h < 3 && 1 <= i <= 8
    ensures Students[8 * h + i - 1] == Spawn(StudentKey(Houses[h], i), Dorm(Houses[h]).x + 64 * (i - 1) - 224,
      Dorm(Houses[h]).y, SkinFor(Houses[h]), StudentName(Houses[h], i), Some(Houses[h]), Some(8 * h + i), false)
  {
    var k := 8 * h + i - 1;
    assert k / 8 == h && k % 8 == i - 1;
  }

  /** One step of the inner loop of `spawnEchoes`: student `i` of house `h` is created under its key. */
  lemma StudentStep(w: World, seats: MapParser.Seats, timers: seq<real>, h: nat, i: nat)
    requires |timers| == 24 && h < 3 && 1 <= i <= 8
    ensures var before, house, n := Populate(w, seats, Students, timers, 8 * h + i - 1), Houses[h], 8 * h + i;
      var id, x, y := StudentKey(house, i), Dorm(house).x + 64 * (i - 1) - 224, Dorm(house).y;
      Populate(w, seats, Students, timers, n) ==
        World(before.entities[id := Spawned(seats, id, x, y, Some(house), Some(n), timers[n - 1])],
              before.players[id := SpawnedState(seats, id, x, y, SkinFor(house), StudentName(house, i), Some(house), Some(n))])
  {
    StudentAt(h, i);
  }

  /** A student's key names its house and its slot digit. */
  lemma StudentIdParts(k: nat)
    requires k < 24
    ensures |Student(k).id| == 10 + |Houses[k / 8]|
    ensures Student(k).id[8..|Student(k).id| - 2] == Houses[k / 8]
    ensures Student(k).id[|Student(k).id| - 1] == Strings.DigitChar(k % 8 + 1)
  {
    var house := Houses[k / 8];
    var i := k % 8 + 1;
    assert Strings.NatToString(i) == [Strings.DigitChar(i)];
    var id := "student_" + house + "_" + [Strings.DigitChar(i)];
    assert id[8..|id| - 2] == house;
  }

  /** The 24 students have 24 different keys, so none overwrites another. */
  lemma StudentIdsDistinct(a: nat, b: nat)
    requires a < 24 && b < 24 && a != b
    ensures Student(a).id != Student(b).id
  {
    StudentIdParts(a);
    StudentIdParts(b);
    Strings.DigitCharValue(a % 8 + 1);
    Strings.DigitCharValue(b % 8 + 1);
    assert a / 8 != b / 8 || a % 8 != b % 8;
  }

  /** Without a registered bed, the students' beds are the ones the seat generator places. */
  lemma StudentBedMatchesMap(k: nat)
    requires k < 24
    ensures Student(k).x == FixedSeats.Bed(k / 8, k % 8).x && Student(k).y == FixedSeats.Bed(k / 8, k % 8).y
  {
  }

  /**
   * After `spawnEchoes`, every student k is present in both maps under its
   * key, with numeric id k + 1, the house `Houses[k div 8]`, and its body and
   * schema state at the bed registered for seat k, or at its dormitory bed.
   */
  lemma SpawnEchoesSpec(w: World, seats: MapParser.Seats, timers: seq<real>, k: nat)
    requires |timers| == 24 && k < 24
    ensures var r, id := Populate(w, seats, Students, timers, |Students|), Student(k).id;
      var bed := Seat(seats.bed, k, MapParser.Pos(Student(k).x, Student(k).y));
      && id in r.entities && id in r.players
      && r.entities[id].id == Some(k + 1)
      && r.entities[id].body == Some(Body(bed, id))
      && r.players[id].house == Houses[k / 8]
      && r.players[id].x == bed.x && r.players[id].y == bed.y
  {
    forall j | k < j < 24
      ensures Students[j].id != Students[k].id
    {
      StudentIdsDistinct(j, k);
    }
    PopulateLatest(w, seats, Students, timers, |Students|, k);
  }

  // ------------------------------------------------------------- teachers

  /** A map NPC becomes `teacher_<id>`, an ignis-house character without a numeric id. */
  function NpcSpawn(npc: MapParser.Npc): Spawn {
    Spawn("teacher_" + Strings.IntToString(npc.id), npc.x, npc.y, SkinText(npc.skin), npc.name, Some("ignis"), None, true)
  }

  /** The text of an NPC's `skin` value. */
  function SkinText(v: Tiled.Value): string {
    match v
    case Str(s) => s
    case Int(i) => Strings.IntToString(i)
    case Bool(b) => if b then "true" else "false"
  }

  function NpcSpawns(npcs: seq<MapParser.Npc>): (r: seq<Spawn>)
    ensures |r| == |npcs| && forall k :: 0 <= k < |npcs| ==> r[k] == NpcSpawn(npcs[k])
  {
    if |npcs| == 0 then [] else [NpcSpawn(npcs[0])] + NpcSpawns(npcs[1..])
  }

  /** The five hard-coded teachers of `spawnTeachers`. */
  const LegacyTeachers: seq<(int, int, string)> := [
    (1584, 1250, "Professor Hecate"), (1600, 1600, "Headmaster Aris"), (1300, 1300, "Caretaker Filch"),
    (600, 1000, "Matron Pomfrey"), (1600, 2880, "Baba Yaga")]

  function LegacySpawn(i: nat): Spawn
    requires i < |LegacyTeachers|
  {
    var t := LegacyTeachers[i];
    Spawn("teacher_legacy_" + Strings.NatToString(i), t.0, t.1, "teacher", t.2, Some("ignis"), None, true)
  }

  /** The first `n` legacy teachers, in spawning order. */
  function LegacyRoster(n: nat): (r: seq<Spawn>)
    requires n <= |LegacyTeachers|
    ensures |r| == n && forall i :: 0 <= i < n ==> r[i] == LegacySpawn(i)
  {
    if n == 0 then [] else LegacyRoster(n - 1) + [LegacySpawn(n - 1)]
  }

  const LegacySpawns: seq<Spawn> := LegacyRoster(5)

  /** The spawns of `spawnFromMap`: the NPC layer, or the legacy teachers when it is empty. */
  function TeacherSpawns(npcs: seq<MapParser.Npc>): seq<Spawn> {
    if |npcs| > 0 then NpcSpawns(npcs) else LegacySpawns
  }

  /** A spawn loop's stay-put entry leaves an idle AI with no routine, at home where it was asked to spawn. */
  lemma PlacedStays(seats: MapParser.Seats, sp: Spawn, timer: real)
    requires sp.stays
    ensures var ai := Placed(seats, sp, timer).ai;
      ai.Some? && ai.value.routineSpots.None? && ai.value.state == "idle" && ai.value.home == MapParser.Pos(sp.x, sp.y)
  {
  }

  /**
   * The teachers of `spawnFromMap`: the NPCs of the layer, each as
   * `teacher_<id>` at its map position, or, when the layer has none, the five
   * legacy teachers `teacher_legacy_<i>`; all stay put, in house ignis,
   * without a numeric id.
   */
  lemma TeacherSpawnsSpec(npcs: seq<MapParser.Npc>, k: nat)
    requires k < |TeacherSpawns(npcs)|
    ensures var sp := TeacherSpawns(npcs)[k];
      && sp.stays && sp.house == Some("ignis") && sp.numericId.None?
      && (|npcs| > 0 ==> sp.id == "teacher_" + Strings.IntToString(npcs[k].id) && sp.x == npcs[k].x && sp.y == npcs[k].y)
      && (|npcs| == 0 ==> |TeacherSpawns(npcs)| == 5 && sp.id == "teacher_legacy_" + Strings.NatToString(k)
                          && sp.x == LegacyTeachers[k].0 && sp.y == LegacyTeachers[k].1)
  {
  }

  /**
   * After `spawnFromMap`, each teacher is stored under its key with no
   * routine, idle, at home at its own position and in house ignis — the last
   * of a repeated key being the one kept.
   */
  lemma TeachersSpec(w: World, seats: MapParser.Seats, spawns: seq<Spawn>, timers: seq<real>, k: nat)
    requires |timers| >= |spawns| && k < |spawns|
    requires spawns[k].stays && spawns[k].house == Some("ignis")
    requires forall j :: k < j < |spawns| ==> spawns[j].id != spawns[k].id
    ensures var r, sp := Populate(w, seats, spawns, timers, |spawns|), spawns[k];
      && sp.id in r.entities && sp.id in r.players
      && r.entities[sp.id].ai.Some?
      && r.entities[sp.id].ai.value.routineSpots.None?
      && r.entities[sp.id].ai.value.state == "idle"
      && r.entities[sp.id].ai.value.home == MapParser.Pos(sp.x, sp.y)
      && r.players[sp.id].house == "ignis"
  {
    PopulateLatest(w, seats, spawns, timers, |spawns|, k);
    PlacedStays(seats, spawns[k], timers[k]);
  }

  /**
   * A teacher has no numeric id, so it takes seat 0: when the map registers
   * bed 0, every teacher's body and schema position are that bed, while its
   * AI home is its own map position.
   */
  lemma TeacherSpawnsAtBedZero(seats: MapParser.Seats, sp: Spawn, timer: real)
    requires sp.numericId.None? && sp.stays && Tiled.Int(0) in seats.bed
    ensures var e := Placed(seats, sp, timer);
      && e.body == Some(Body(seats.bed[Tiled.Int(0)], sp.id))
      && SpawnedState(seats, sp.id, sp.x, sp.y, sp.skin, sp.username, sp.house, sp.numericId).x == seats.bed[Tiled.Int(0)].x
      && e.ai.Some? && e.ai.value.home == MapParser.Pos(sp.x, sp.y)
  {
  }

  // ------------------------------------------------------------- the echo limit

  predicate IsEcho(key: string) {
    Strings.StartsWith(key, "echo_")
  }

  /** The `echoKeys` of `enforceEchoLimit`: the echo keys of `order`, in order. */
  function EchoKeys(order: seq<string>): seq<string> {
    if |order| == 0 then []
    else
      var last := order[|order| - 1];
      EchoKeys(order[..|order| - 1]) + (if IsEcho(last) then [last] else [])
  }

  /** The first `n` keys of `keys`, as a set. */
  function Firsts(keys: seq<string>, n: nat): set<string>
    requires n <= |keys|
  {
    if n == 0 then {} else Firsts(keys, n - 1) + {keys[n - 1]}
  }

  /** The keys `enforceEchoLimit` removes: with n ≥ 50 echoes, the first n − 49, else none. */
  function Evicted(order: seq<string>): set<string> {
    var echoes := EchoKeys(order);
    if |echoes| >= MaxEchoes then Firsts(echoes, |echoes| - MaxEchoes + 1) else {}
  }

  /** Both maps without the evicted keys. */
  function Evict(w: World, order: seq<string>): World {
    World(w.entities - Evicted(order), w.players - Evicted(order))
  }

  /** The keys of `order` not in `gone`, in order. */
  function Keep(order: seq<string>, gone: set<string>): seq<string> {
    if |order| == 0 then []
    else
      var last := order[|order| - 1];
      Keep(order[..|order| - 1], gone) + (if last in gone then [] else [last])
  }

  /** The echo keys are the keys of `order` that start with `echo_`. */
  lemma {:induction false} EchoKeysMembers(order: seq<string>)
    ensures forall k :: k in EchoKeys(order) <==> k in order && IsEcho(k)
  {
    if |order| > 0 {
      var init := order[..|order| - 1];
      EchoKeysMembers(init);
      assert order == init + [order[|order| - 1]];
    }
  }

  /** `Firsts(keys, n)` holds exactly the keys at positions below `n`. */
  lemma {:induction false} FirstsMembers(keys: seq<string>, n: nat)
    requires n <= |keys|
    ensures forall k :: k in Firsts(keys, n) <==> exists j :: 0 <= j < n && keys[j] == k
  {
    if n > 0 {
      FirstsMembers(keys, n - 1);
    }
  }

  /** The kept keys are the keys of `order` outside `gone`. */
  lemma {:induction false} KeepMembers(order: seq<string>, gone: set<string>)
    ensures forall k :: k in Keep(order, gone) <==> k in order && k !in gone
  {
    if |order| > 0 {
      var init := order[..|order| - 1];
      KeepMembers(init, gone);
      assert order == init + [order[|order| - 1]];
    }
  }

  /** Only echo keys of `order` are ever evicted, so every other player and entity stays. */
  lemma EvictedAreEchoes(order: seq<string>, key: string)
    requires key in Evicted(order)
    ensures key in order && IsEcho(key)
  {
    var echoes := EchoKeys(order);
    FirstsMembers(echoes, |echoes| - MaxEchoes + 1);
    EchoKeysMembers(order);
  }

  /** Picking out the echoes of a longer order. */
  lemma EchoKeysSnoc(s: seq<string>, x: string)
    ensures EchoKeys(s + [x]) == EchoKeys(s) + (if IsEcho(x) then [x] else [])
  {
    assert (s + [x])[..|s|] == s;
  }

  /** Keeping the keys of a longer order. */
  lemma KeepSnoc(s: seq<string>, x: string, gone: set<string>)
    ensures Keep(s + [x], gone) == Keep(s, gone) + (if x in gone then [] else [x])
  {
    assert (s + [x])[..|s|] == s;
  }

  /** Keeping commutes with picking out the echoes. */
  lemma {:induction false} EchoKeysOfKeep(order: seq<string>, gone: set<string>)
    ensures EchoKeys(Keep(order, gone)) == Keep(EchoKeys(order), gone)
  {
    if |order| > 0 {
      var init, last := order[..|order| - 1], order[|order| - 1];
      assert order == init + [last];
      EchoKeysOfKeep(init, gone);
      KeepSnoc(init, last, gone);
      EchoKeysSnoc(init, last);
      var left, right := EchoKeys(Keep(order, gone)), Keep(EchoKeys(order), gone);
      if last in gone {
        assert Keep(order, gone) == Keep(init, gone) + [];
        assert Keep(init, gone) + [] == Keep(init, gone);
        if IsEcho(last) {
          KeepSnoc(EchoKeys(init), last, gone);
          assert right == Keep(EchoKeys(init), gone) + [];
        } else {
          assert EchoKeys(order) == EchoKeys(init) + [];
          assert EchoKeys(init) + [] == EchoKeys(init);
        }
      } else {
        EchoKeysSnoc(Keep(init, gone), last);
        if IsEcho(last) {
          KeepSnoc(EchoKeys(init), last, gone);
        } else {
          assert EchoKeys(order) == EchoKeys(init) + [];
          assert EchoKeys(init) + [] == EchoKeys(init);
          assert left == EchoKeys(Keep(init, gone)) + [];
        }
      }
    }
  }

  /** In distinct keys, the first `m` are in `Firsts(keys, m)` and the others are not. */
  lemma FirstsSplit(keys: seq<string>, m: nat)
    requires Distinct(keys) && m <= |keys|
    ensures forall j :: 0 <= j < m ==> keys[j] in Firsts(keys, m)
    ensures forall j :: m <= j < |keys| ==> keys[j] !in Firsts(keys, m)
  {
    FirstsMembers(keys, m);
  }

  /** Dropping a set that holds exactly the first `m` keys leaves the rest. */
  lemma {:induction false} KeepDropsPrefix(keys: seq<string>, gone: set<string>, m: nat)
    requires m <= |keys|
    requires forall j :: 0 <= j < m ==> keys[j] in gone
    requires forall j :: m <= j < |keys| ==> keys[j] !in gone
    ensures Keep(keys, gone) == keys[m..]
  {
    if |keys| > 0 {
      var init := keys[..|keys| - 1];
      if m == |keys| {
        KeepDropsPrefix(init, gone, m - 1);
      } else {
        KeepDropsPrefix(init, gone, m);
        assert keys[m..] == init[m..] + [keys[|keys| - 1]];
      }
    }
  }

  /** The echo keys of a listing are distinct. */
  lemma {:induction false} EchoKeysDistinct(order: seq<string>)
    requires Distinct(order)
    ensures Distinct(EchoKeys(order))
  {
    if |order| > 0 {
      var init := order[..|order| - 1];
      assert Distinct(init);
      EchoKeysDistinct(init);
      EchoKeysMembers(init);
    }
  }

  /**
   * `enforceEchoLimit` keeps the newest echoes: the echo keys left, in
   * order, are the last 49 of the n there were when n ≥ 50, and all of them
   * otherwise.
   */
  lemma EvictionKeepsNewest(order: seq<string>)
    requires Distinct(order)
    ensures var echoes := EchoKeys(order);
      && (|echoes| >= MaxEchoes ==>
            EchoKeys(Keep(order, Evicted(order))) == echoes[|echoes| - MaxEchoes + 1..]
            && |EchoKeys(Keep(order, Evicted(order)))| == MaxEchoes - 1)
      && (|echoes| < MaxEchoes ==> Keep(order, Evicted(order)) == order)
  {
    var echoes := EchoKeys(order);
    var gone := Evicted(order);
    EchoKeysOfKeep(order, gone);
    if |echoes| >= MaxEchoes {
      var m := |echoes| - MaxEchoes + 1;
      EchoKeysDistinct(order);
      FirstsSplit(echoes, m);
      KeepDropsPrefix(echoes, gone, m);
    } else {
      KeepDropsPrefix(order, gone, 0);
    }
  }

  /** The kept keys list the players left. */
  lemma EvictKeepsListing(order: seq<string>, players: map<string, PlayerState>)
    requires Listing(order, players)
    ensures Listing(Keep(order, Evicted(order)), players - Evicted(order))
  {
    KeepDistinct(order, Evicted(order));
    KeepMembers(order, Evicted(order));
  }

  lemma {:induction false} KeepDistinct(order: seq<string>, gone: set<string>)
    requires Distinct(order)
    ensures Distinct(Keep(order, gone))
  {
    if |order| > 0 {
      var init := order[..|order| - 1];
      assert Distinct(init);
      KeepDistinct(init, gone);
      KeepMembers(init, gone);
    }
  }

  // ------------------------------------------------------------- echoes

  /** The key of the echo of database player `dbId` made at time `now`. */
  function EchoId(dbId: int, now: int): string {
    "echo_" + Strings.IntToString(dbId) + "_" + Strings.IntToString(now)
  }

  /**
   * `convertToEcho`: the world after the call, and the caller's entity
   * object after it. A body-less entity changes nothing; otherwise the echo
   * limit runs, the session key leaves `entities`, the entity gets an idle
   * AI at its position and released keys, and only when the session had a
   * schema state is that state copied under the echo key ("Echo of ..."
   * with the drawn house) and the entity re-inserted there.
   */
  function Converted(w: World, order: seq<string>, sessionId: string, dbId: int, e: Entity, now: int, house: string): (World, Entity) {
    if e.body.None? then (w, e)
    else
      var w1 := Evict(w, order);
      var pos := e.body.value.at;
      var echoId := EchoId(dbId, now);
      var entities := w1.entities - {sessionId};
      var e1 := e.(ai := Some(Ai("idle", 0.0, pos, Some(house), None)), input := Released);
      if sessionId in w1.players then
        var prior := w1.players[sessionId];
        var echoState := prior.(username := "Echo of " + prior.username, id := echoId, house := house);
        var e2 := e1.(player := if e1.player.Some? then Some(echoId) else None,
                      body := Some(e1.body.value.(sessionId := echoId)));
        (World(entities[echoId := e2], w1.players[echoId := echoState] - {sessionId}), e2)
      else
        (World(entities, w1.players), e1)
  }

  /** What `convertToEcho` promises, in both cases of the session having a schema state. */
  lemma ConvertedSpec(w: World, order: seq<string>, sessionId: string, dbId: int, e: Entity, now: int, house: string)
    requires e.body.Some?
    ensures var r, echo := Converted(w, order, sessionId, dbId, e, now, house).0, Converted(w, order, sessionId, dbId, e, now, house).1;
      var w1, echoId := Evict(w, order), EchoId(dbId, now);
      && echo.ai == Some(Ai("idle", 0.0, e.body.value.at, Some(house), None))
      && echo.input == Released
      && (sessionId !in w1.players ==>
            r.entities == w1.entities - {sessionId} && r.players == w1.players && echo.body == e.body)
      && (sessionId in w1.players ==>
            && echoId in r.entities && r.entities[echoId] == echo
            && echo.body == Some(Body(e.body.value.at, echoId))
            && (e.player.Some? ==> echo.player == Some(echoId))
            && (forall k :: k != echoId && k != sessionId ==>
                  (k in r.entities <==> k in w1.entities) && (k in r.players <==> k in w1.players)))
      && (sessionId in w1.players && echoId != sessionId ==>
            && sessionId !in r.entities && sessionId !in r.players
            && echoId in r.players
            && r.players[echoId] == w1.players[sessionId].(username := "Echo of " + w1.players[sessionId].username,
                                                            id := echoId, house := house))
  {
  }

  /** An echo key is an echo key, so a later echo limit counts it. */
  lemma EchoIdIsEcho(dbId: int, now: int)
    ensures IsEcho(EchoId(dbId, now))
  {
  }

  // ------------------------------------------------------------- the manager

  class SpawnManager {
    var entities: map<string, Entity>
    var players: map<string, PlayerState>
    var seats: MapParser.Seats

    /** A manager over the room's maps, with no seats loaded. */
    constructor(entities: map<string, Entity>, players: map<string, PlayerState>)
      ensures this.entities == entities && this.players == players
      ensures seats == MapParser.Seats(map[], map[], map[])
    {
      this.entities := entities;
      this.players := players;
      seats := MapParser.Seats(map[], map[], map[]);
    }

    function State(): World
      reads this
    {
      World(entities, players)
    }

    /** `loadSeats`: the seat tables become those of the map. */
    method LoadSeats(m: Tiled.TiledMap)
      requires m.layers.Some?
      modifies this
      ensures var objs := MapParser.GetObjects(m, "FixedSeats");
        seats == MapParser.Seats(MapParser.SeatTable(objs, "bed", |objs|), MapParser.SeatTable(objs, "seat_class", |objs|),
                                 MapParser.SeatTable(objs, "seat_food", |objs|))
      ensures State() == old(State())
    {
      seats := MapParser.ParseSeats(m);
    }

    /** `enforceEchoLimit`, with `order` the iteration order of the players. */
    method EnforceEchoLimit(order: seq<string>)
      requires Listing(order, players)
      modifies this
      ensures State() == Evict(old(State()), order) && seats == old(seats)
    {
      var echoKeys: seq<string> := [];
      for i := 0 to |order|
        invariant echoKeys == EchoKeys(order[..i])
        invariant State() == old(State()) && seats == old(seats)
      {
        assert order[..i + 1][..i] == order[..i];
        if Strings.StartsWith(order[i], "echo_") {
          echoKeys := echoKeys + [order[i]];
        }
      }
      assert order[..|order|] == order;
      if |echoKeys| >= MaxEchoes {
        var toRemoveCount := |echoKeys| - MaxEchoes + 1;
        for i := 0 to toRemoveCount
          invariant seats == old(seats)
          invariant entities == old(entities) - Firsts(echoKeys, i)
          invariant players == old(players) - Firsts(echoKeys, i)
        {
          var keyToRemove := echoKeys[i];
          if keyToRemove in entities {
            entities := entities - {keyToRemove};
          }
          players := players - {keyToRemove};
        }
      }
    }

    /** `createEchoEntity`: the spawned entity and its schema state are stored under `id`. */
    method CreateEchoEntity(id: string, x: int, y: int, skin: string, username: string, house: Option<string>,
                            numericId: Option<int>, timer: real)
      modifies this
      ensures entities == old(entities)[id := Spawned(seats, id, x, y, house, numericId, timer)]
      ensures players == old(players)[id := SpawnedState(seats, id, x, y, skin, username, house, numericId)]
      ensures seats == old(seats)
    {
      var studentIndex := if numericId.Some? then GameConfig.JsRem(numericId.value - 1, 8) else 0;
      var seatId := if numericId.Some? then numericId.value - 1 else 0;
      var sleepPos := Seat(seats.bed, seatId, MapParser.Pos(x, y));
      var eatPos := Seat(seats.food, seatId, EatFallback(studentIndex, house));
      var classPos := Seat(seats.classroom, seatId, ClassFallback(seatId));
      var spawnX, spawnY := sleepPos.x, sleepPos.y;
      var body := Body(MapParser.Pos(spawnX, spawnY), id);
      var entity := Entity(numericId, Some(body), Released, Some(MapParser.Pos(0, 1)), Some(id),
        Some(Ai("idle", timer, MapParser.Pos(spawnX, spawnY), house, Some(Spots(sleepPos, classPos, eatPos)))));
      entities := entities[id := entity];
      var playerState := PlayerState(id, username, spawnX, spawnY, skin, if house.Some? && house.value != "" then house.value else "ignis");
      players := players[id := playerState];
    }

    /** `spawnEchoes`: the 24 students, house by house; the k-th gets AI timer `timers[k]` (the count and centre are unused). */
    method SpawnEchoes(count: int, centerPos: Pos, timers: seq<real>)
      requires |timers| == 24
      modifies this
      ensures State() == Populate(old(State()), seats, Students, timers, |Students|) && seats == old(seats)
    {
      ghost var w0 := State();
      var globalIdCounter := 1;
      var h := 0;
      while h < 3
        invariant h <= 3 && globalIdCounter == 8 * h + 1 && seats == old(seats)
        invariant World(entities, players) == Populate(w0, seats, Students, timers, 8 * h)
      {
        globalIdCounter := SpawnHouse(w0, h, globalIdCounter, timers);
        h := h + 1;
      }
      assert |Students| == 8 * h;
    }

    /**
     * The `forEach` callback of `spawnEchoes` for house `h`: its eight
     * students, numbered on from the shared counter, which it returns.
     */
    method SpawnHouse(ghost w0: World, h: nat, counter: int, timers: seq<real>) returns (globalIdCounter: int)
      requires h < 3 && counter == 8 * h + 1 && |timers| == 24
      requires World(entities, players) == Populate(w0, seats, Students, timers, 8 * h)
      modifies this
      ensures globalIdCounter == 8 * h + 9 && seats == old(seats)
      ensures World(entities, players) == Populate(w0, seats, Students, timers, 8 * h + 8)
    {
      globalIdCounter := counter;
      var house := Houses[h];
      var dormPos := Dorm(house);
      for i := 1 to 9
        invariant globalIdCounter == 8 * h + i && seats == old(seats)
        invariant World(entities, players) == Populate(w0, seats, Students, timers, 8 * h + i - 1)
      {
        var id := StudentKey(house, i);
        var numericId := globalIdCounter;
        globalIdCounter := globalIdCounter + 1;
        var studentIndex := i - 1;
        var skin := SkinFor(house);
        var x := dormPos.x + 64 * studentIndex - 224;
        var username := StudentName(house, i);
        ghost var before := World(entities, players);
        StudentStep(w0, seats, timers, h, i);
        CreateEchoEntity(id, x, dormPos.y, skin, username, Some(house), Some(numericId), timers[numericId - 1]);
        assert x == Dorm(Houses[h]).x + 64 * (i - 1) - 224;
        assert id == StudentKey(Houses[h], i);
        assert Populate(w0, seats, Students, timers, 8 * h + i) ==
          World(before.entities[id := Spawned(seats, id, x, dormPos.y, Some(house), Some(numericId), timers[numericId - 1])],
                before.players[id := SpawnedState(seats, id, x, dormPos.y, skin, username, Some(house), Some(numericId))]);
        assert World(entities, players) == Populate(w0, seats, Students, timers, numericId);
      }
    }

    /** The loop of `spawnFromMap` and `spawnTeachers`: create each teacher, then tell its AI to stay put. */
    method SpawnStatic(spawns: seq<Spawn>, timers: seq<real>)
      requires |timers| >= |spawns| && forall k :: 0 <= k < |spawns| ==> spawns[k].stays
      modifies this
      ensures State() == Populate(old(State()), seats, spawns, timers, |spawns|) && seats == old(seats)
    {
      for k := 0 to |spawns|
        invariant seats == old(seats)
        invariant State() == Populate(old(State()), seats, spawns, timers, k)
      {
        var t := spawns[k];
        ghost var before := State();
        CreateEchoEntity(t.id, t.x, t.y, t.skin, t.username, t.house, t.numericId, timers[k]);
        if t.id in entities && entities[t.id].ai.Some? {
          var ai := entities[t.id].ai.value;
          entities := entities[t.id := entities[t.id].(ai := Some(ai.(routineSpots := None, home := MapParser.Pos(t.x, t.y), state := "idle")))];
        }
        assert entities == before.entities[t.id := Placed(seats, t, timers[k])];
        assert State() == Place(before, seats, t, timers[k]);
      }
    }

    /** `spawnFromMap`: the NPC layer's teachers, or `spawnTeachers`' five when the layer is empty. */
    method SpawnFromMap(m: Tiled.TiledMap, timers: seq<real>)
      requires m.layers.Some? && |timers| >= |TeacherSpawns(MapParser.ParseNpcs(m))|
      modifies this
      ensures var spawns := TeacherSpawns(MapParser.ParseNpcs(m));
        State() == Populate(old(State()), seats, spawns, timers, |spawns|) && seats == old(seats)
    {
      var npcs := MapParser.ParseNpcs(m);
      if |npcs| > 0 {
        SpawnStatic(NpcSpawns(npcs), timers);
      } else {
        SpawnStatic(LegacySpawns, timers);
      }
    }

    /**
     * `convertToEcho`, with `order` the iteration order of the players, `now`
     * the clock and `draw` the random house index; `echo` is the caller's
     * entity object after the call.
     */
    method ConvertToEcho(order: seq<string>, clientSessionId: string, dbId: int, entity: Entity, now: int, draw: nat)
      returns (echo: Entity)
      requires Listing(order, players) && draw < 3
      modifies this
      ensures (State(), echo) == Converted(old(State()), order, clientSessionId, dbId, entity, now, Houses[draw])
      ensures seats == old(seats)
    {
      echo := entity;
      if entity.body.None? {
        return;
      }
      EnforceEchoLimit(order);
      var pos := entity.body.value.at;
      var echoId := "echo_" + Strings.IntToString(dbId) + "_" + Strings.IntToString(now);
      var house := Houses[draw];
      entities := entities - {clientSessionId};
      echo := echo.(ai := Some(Ai("idle", 0.0, pos, Some(house), None)));
      echo := echo.(input := Released);
      if clientSessionId in players {
        var oldPlayerState := players[clientSessionId];
        var echoState := oldPlayerState.(username := "Echo of " + oldPlayerState.username, id := echoId, house := house);
        players := players[echoId := echoState];
        players := players - {clientSessionId};
        if echo.player.Some? {
          echo := echo.(player := Some(echoId));
        }
        echo := echo.(body := Some(echo.body.value.(sessionId := echoId)));
        entities := entities[echoId := echo];
      }
    }
  }
}
