/**
 * dist-server/shared/systems/AISystem.js: the students' daily routine.
 * Every frame each agent's timer grows by `dt`. A duelling agent keeps
 * facing its opponent and casts every 2.5 s. Any other agent picks a
 * destination from the hour of the day, waits a staggered delay when the
 * destination changes, then walks a path from the pathfinder waypoint by
 * waypoint; once there, or with nowhere to go, it stands idle facing the
 * way its activity wants.
 *
 * What the source computes with square roots, trigonometry, the physics
 * world, the clock and the random generator arrives here as a `Sense`, one
 * per agent: the body's position and speed, the opponent's position, the
 * duel's aim and movement vectors, the spell drawn, the golden-angle
 * spread point of each gathering place, the pathfinder's answer and the
 * normalised steering direction.
 */
module AiRoutine {
  import opened Wrappers
  import Strings
  import GameConfig

  /** A position in pixels. */
  datatype Pos = Pos(x: real, y: real)

  /** `routineSpots`: where an agent eats, attends class and sleeps. */
  datatype Spots = Spots(eat: Pos, classroom: Pos, sleep: Pos)

  /** An entity's `id`: a number, a string, or absent. */
  datatype EntityId = NumId(n: int) | StrId(s: string) | NoId

  /** `Math.floor(Math.random() * 3)`: an index into the three spell shapes. */
  type Draw = i: int | 0 <= i < 3

  const SpellShapes: seq<string> := ["circle", "square", "triangle"]

  /** What one agent's surroundings give it this frame (see the module comment). */
  datatype Sense = Sense(
    pos: Pos,
    hour: int,
    id: EntityId,
    player: Option<string>,
    canCast: bool,
    duelTarget: Option<Pos>,
    aim: Pos,
    duelMove: Pos,
    spell: Draw,
    spread: (GameConfig.Point, int) -> Pos,
    hasPathfinder: bool,
    found: Option<seq<Pos>>,
    steer: Pos,
    speedSq: real)

  /** The `ai` component. */
  datatype Ai = Ai(
    state: string,
    timer: real,
    targetId: Option<string>,
    home: Pos,
    spots: Option<Spots>,
    targetPos: Option<Pos>,
    path: Option<seq<Pos>>)

  /** The `input` component's movement flags and analog direction. */
  datatype Controls = Controls(left: bool, right: bool, up: bool, down: bool, analog: Option<Pos>)

  /** A `castCallback(sessionId, spell, vx, vy)` call. */
  datatype Cast = Cast(sessionId: string, spell: string, vx: real, vy: real)

  /** An agent's components after one frame, and the cast it made, if any. */
  datatype Frame = Frame(ai: Ai, controls: Controls, facing: Option<Pos>, cast: Option<Cast>)

  function Abs(r: real): real {
    if r < 0.0 then -r else r
  }

  /** The squared distance; `Math.sqrt(d) > c` is `d > c·c` for a non-negative `c`. */
  function DistSq(a: Pos, b: Pos): (d: real)
    ensures d >= 0.0
  {
    (a.x - b.x) * (a.x - b.x) + (a.y - b.y) * (a.y - b.y)
  }

  /**
   * `typeof id === 'number' ? id : (parseInt(id || "0") || 0)`: a number is
   * used as it is, a string is parsed, and an empty, absent or unparsable id
   * counts as 0.
   */
  function NumericId(id: EntityId): (n: int)
    ensures id.NumId? ==> n == id.n
    ensures id.NoId? || id == StrId("") ==> n == 0
    ensures id.StrId? && id.s != "" ==> n == Strings.ParseInt(id.s).GetOr(0)
  {
    match id
    case NumId(n) => n
    case StrId(s) => Strings.ParseInt(if s == "" then "0" else s).GetOr(0)
    case NoId => Strings.ParseInt("0").GetOr(0)
  }

  /** `(numericId % 8) * 500`, with JavaScript's remainder. */
  function StartDelay(numericId: int): (d: int)
    ensures numericId >= 0 ==> 0 <= d <= 3500
    ensures numericId < 0 ==> -3500 <= d <= 0
  {
    GameConfig.JsRem(numericId, 8) * 500
  }

  // ------------------------------------------------------------ destination

  /** What the hour of the day sends an agent with routine spots to do. */
  datatype Activity = Eat | Class | Sleep | Training | Gathering | Woods

  function ActivityAt(hour: int): Activity {
    if (7 <= hour < 8) || (19 <= hour < 21) then Eat
    else if (8 <= hour < 10) || (17 <= hour < 19) then Class
    else if hour >= 21 || hour < 7 then Sleep
    else if 10 <= hour < 12 then Training
    else if 12 <= hour < 14 then Gathering
    else if 14 <= hour < 17 then Woods
    else Sleep
  }

  /** The day as a timetable, hour 0 to hour 23. */
  lemma DailyTimetable()
    ensures seq(24, h => ActivityAt(h)) == [
      Sleep, Sleep, Sleep, Sleep, Sleep, Sleep, Sleep,  // 0 to 6
      Eat, Class, Class, Training, Training,            // 7 to 11
      Gathering, Gathering, Woods, Woods, Woods,        // 12 to 16
      Class, Class, Eat, Eat, Sleep, Sleep, Sleep]      // 17 to 23
  {
  }

  /** Where an agent heads and which way it then faces. */
  datatype Plan = Plan(desired: Pos, facing: Pos)

  const FaceUp: Pos := Pos(0.0, -1.0)
  const FaceDown: Pos := Pos(0.0, 1.0)

  /**
   * Step 1 of the loop: home facing down without routine spots; otherwise
   * the spot or the gathering place of the hour's activity.
   */
  function Destination(hour: int, spots: Option<Spots>, home: Pos, spread: (GameConfig.Point, int) -> Pos): Plan {
    match spots
    case None => Plan(home, FaceDown)
    case Some(sp) =>
      match ActivityAt(hour)
      case Eat => Plan(sp.eat, FaceUp)
      case Class => Plan(sp.classroom, FaceUp)
      case Sleep => Plan(sp.sleep, FaceDown)
      case Training => Plan(spread(GameConfig.TrainingGrounds, 200), FaceDown)
      case Gathering => Plan(spread(GameConfig.Courtyard, 150), FaceDown)
      case Woods => Plan(spread(GameConfig.Forest, 400), FaceDown)
  }

  /**
   * The schedule: meals and classes face up, everything else faces down;
   * each activity goes to its own spot, or to the spread point of its place
   * with the place's radius.
   */
  lemma DestinationSpec(hour: int, spots: Option<Spots>, home: Pos, spread: (GameConfig.Point, int) -> Pos)
    ensures var p := Destination(hour, spots, home, spread);
      && (spots.None? ==> p == Plan(home, FaceDown))
      && (spots.Some? ==> (p.facing == FaceUp <==> ActivityAt(hour) in {Eat, Class}))
      && (spots.Some? && ActivityAt(hour) == Eat ==> p.desired == spots.value.eat)
      && (spots.Some? && ActivityAt(hour) == Class ==> p.desired == spots.value.classroom)
      && (spots.Some? && ActivityAt(hour) == Sleep ==> p.desired == spots.value.sleep)
      && (spots.Some? && ActivityAt(hour) == Training ==> p.desired == spread(GameConfig.Point(2640, 1520), 200))
      && (spots.Some? && ActivityAt(hour) == Gathering ==> p.desired == spread(GameConfig.Point(1056, 1280), 150))
      && (spots.Some? && ActivityAt(hour) == Woods ==> p.desired == spread(GameConfig.Point(1600, 2880), 400))
  {
  }

  // ------------------------------------------------------------ the frame

  /** The duel branch applies: a duelling agent with a non-empty target id, and both callbacks given. */
  predicate Duelling(a: Ai, s: Sense) {
    a.state == "duel" && a.targetId.Some? && a.targetId.value != "" && s.canCast
  }

  /**
   * Step 0: with the opponent in sight, move and face as the geometry says
   * and cast the drawn spell once the timer passes 2.5 s; with the opponent
   * gone, fall back to idle.
   */
  function DuelStep(a: Ai, c: Controls, facing: Option<Pos>, s: Sense): Frame {
    match s.duelTarget
    case None => Frame(a.(state := "idle", timer := 0.0), c, facing, None)
    case Some(_) =>
      var c1 := c.(analog := Some(s.duelMove));
      var f1 := if facing.Some? then Some(s.aim) else None;
      if a.timer > 2500.0 then
        Frame(a.(timer := 0.0), c1, f1,
              Some(Cast(s.player.GetOr(""), SpellShapes[s.spell], s.aim.x * 400.0, s.aim.y * 400.0)))
      else Frame(a, c1, f1, None)
  }

  /**
   * Step 2: far from the destination (more than 20 px), a destination more
   * than 5 px from the stored target makes the agent idle with the timer
   * reset and the destination stored; an idle agent whose timer exceeds its
   * start delay then sets off on a fresh route. Close to the destination the
   * agent becomes idle, its timer reset if it was doing something else.
   *
   * `everyFrame` says where the start check runs: `false` is the source as
   * written, inside the target-change branch; `true` runs it on every frame
   * the agent is far from its destination.
   */
  function Choose(a: Ai, desired: Pos, pos: Pos, numericId: int, everyFrame: bool): Ai {
    if DistSq(desired, pos) > 400.0 then
      var changed := a.targetPos.None? || Abs(a.targetPos.value.x - desired.x) > 5.0
                     || Abs(a.targetPos.value.y - desired.y) > 5.0;
      var b := if changed && (a.state != "idle" || a.targetPos != Some(desired))
               then a.(state := "idle", timer := 0.0, targetPos := Some(desired)) else a;
      if (changed || everyFrame) && b.state == "idle" && b.timer > StartDelay(numericId) as real
      then b.(state := "routine", path := None, timer := 0.0)
      else b
    else if a.state != "idle" then a.(state := "idle", timer := 0.0)
    else a
  }

  /** The movement flags a steering direction sets. */
  function SteerControls(d: Pos): Controls {
    Controls(d.x < -0.3, d.x > 0.3, d.y < -0.3, d.y > 0.3, Some(d))
  }

  /**
   * Following a route: a routine agent with a target asks the pathfinder
   * for a route when it has none, drops the first waypoint once within
   * 12 px of it, and otherwise steers towards it, forgetting the route when
   * it has been nearly still (speed under 5) for more than 2 s; without a
   * route it turns idle.
   */
  function Follow(a: Ai, c: Controls, s: Sense): (Ai, Controls) {
    var a1 := if a.path.None? && s.hasPathfinder then a.(path := s.found) else a;
    if a1.path.Some? && |a1.path.value| > 0 then
      if DistSq(a1.path.value[0], s.pos) < 144.0 then (a1.(path := Some(a1.path.value[1..])), c)
      else Steer(a1, s)
    else (a1.(state := "idle", timer := 0.0), c)
  }

  /** Steering towards the next waypoint, and the stuck check. */
  function Steer(a: Ai, s: Sense): (Ai, Controls) {
    (if s.speedSq < 25.0 && a.timer > 2000.0 then a.(path := None, timer := 0.0) else a, SteerControls(s.steer))
  }

  /** Step 3: a routine agent with a target follows its route; an idle agent stops and faces the plan's way. */
  function Execute(a: Ai, c: Controls, facing: Option<Pos>, s: Sense, face: Pos): Frame {
    if a.state == "routine" && a.targetPos.Some? then
      var r := Follow(a, c, s);
      Frame(r.0, r.1, facing, None)
    else if a.state == "idle" then
      Frame(a, c.(left := false, right := false, up := false, down := false), if facing.Some? then Some(face) else None, None)
    else Frame(a, c, facing, None)
  }

  /** One frame of one agent; `everyFrame` as in `Choose`. */
  function Step(a: Ai, c: Controls, facing: Option<Pos>, s: Sense, dt: real, everyFrame: bool): Frame {
    var a0 := a.(timer := a.timer + dt);
    if Duelling(a0, s) then DuelStep(a0, c, facing, s) else Daily(a0, c, facing, s, everyFrame)
  }

  /** Steps 1 to 3, for an agent not in a duel. */
  function Daily(a: Ai, c: Controls, facing: Option<Pos>, s: Sense, everyFrame: bool): Frame {
    var plan := Destination(s.hour, a.spots, a.home, s.spread);
    Execute(Choose(a, plan.desired, s.pos, NumericId(s.id), everyFrame), c, facing, s, plan.facing)
  }

  // ------------------------------------------------------------ properties

  /** A duel whose opponent has vanished ends: the agent is idle with its timer reset. */
  lemma DuelTargetLost(a: Ai, c: Controls, facing: Option<Pos>, s: Sense, dt: real, everyFrame: bool)
    requires Duelling(a, s) && s.duelTarget.None?
    ensures var f := Step(a, c, facing, s, dt, everyFrame);
      f.ai == a.(state := "idle", timer := 0.0) && f.controls == c && f.facing == facing && f.cast.None?
  {
  }

  /** A duelling agent casts exactly when its timer passes 2.5 s, the drawn shape aimed 400 px/s at the opponent, and restarts the timer. */
  lemma DuelCasts(a: Ai, c: Controls, facing: Option<Pos>, s: Sense, dt: real, everyFrame: bool)
    requires Duelling(a, s) && s.duelTarget.Some?
    ensures var f := Step(a, c, facing, s, dt, everyFrame);
      && f.ai.state == "duel"
      && (f.cast.Some? <==> a.timer + dt > 2500.0)
      && (f.cast.Some? ==> f.ai.timer == 0.0 && f.cast.value.spell in SpellShapes
                           && f.cast.value.vx == 400.0 * s.aim.x && f.cast.value.vy == 400.0 * s.aim.y)
      && (f.cast.None? ==> f.ai.timer == a.timer + dt)
      && f.controls.analog == Some(s.duelMove)
      && (facing.Some? <==> f.facing.Some?) && (f.facing.Some? ==> f.facing.value == s.aim)
  {
  }

  /** Within 20 px of its destination an agent is idle, its timer reset if it was busy, and stands still facing the plan's way. */
  lemma ArrivedIdles(a: Ai, c: Controls, facing: Option<Pos>, s: Sense, dt: real, everyFrame: bool)
    requires !Duelling(a, s)
    requires DistSq(Destination(s.hour, a.spots, a.home, s.spread).desired, s.pos) <= 400.0
    ensures var f := Step(a, c, facing, s, dt, everyFrame);
      && f.ai.state == "idle"
      && f.ai.timer == (if a.state == "idle" then a.timer + dt else 0.0)
      && !f.controls.left && !f.controls.right && !f.controls.up && !f.controls.down
      && (facing.Some? ==> f.facing == Some(Destination(s.hour, a.spots, a.home, s.spread).facing))
      && f.cast.None?
  {
  }

  /**
   * A new destination puts the agent in idle waiting for it: the timer
   * restarts and the destination is stored; it leaves at once only when the
   * start delay is negative.
   */
  lemma TargetChangeWaits(a: Ai, desired: Pos, pos: Pos, numericId: int, everyFrame: bool)
    requires DistSq(desired, pos) > 400.0
    requires a.targetPos.None? || Abs(a.targetPos.value.x - desired.x) > 5.0 || Abs(a.targetPos.value.y - desired.y) > 5.0
    ensures var b := Choose(a, desired, pos, numericId, everyFrame);
      && b.targetPos == Some(desired)
      && (b.state == "routine" <==> StartDelay(numericId) < 0)
      && (b.state != "routine" ==> b == a.(state := "idle", timer := 0.0, targetPos := Some(desired)))
      && (b.state == "routine" ==> b == a.(state := "routine", timer := 0.0, targetPos := Some(desired), path := None))
  {
  }

  /**
   * As written, an agent that is not on a route never starts one when its
   * id is non-negative (every string id counts as such): the start check
   * sits in the target-change branch, where the timer has just been reset.
   */
  lemma ChooseAsWrittenNoStart(a: Ai, desired: Pos, pos: Pos, numericId: int)
    requires a.state != "routine" && numericId >= 0
    ensures Choose(a, desired, pos, numericId, false).state != "routine"
  {
  }

  lemma {:induction false} AsWrittenNeverStarts(a: Ai, c: Controls, facing: Option<Pos>, s: Sense, dt: real)
    requires a.state != "routine" && NumericId(s.id) >= 0
    ensures Step(a, c, facing, s, dt, false).ai.state != "routine"
  {
    var a0 := a.(timer := a.timer + dt);
    if !Duelling(a0, s) {
      var plan := Destination(s.hour, a0.spots, a0.home, s.spread);
      ChooseAsWrittenNoStart(a0, plan.desired, s.pos, NumericId(s.id));
      assert Daily(a0, c, facing, s, false) == Execute(Choose(a0, plan.desired, s.pos, NumericId(s.id), false), c, facing, s, plan.facing);
    }
  }

  /** So, frame after frame, such an agent never leaves for its destination. */
  lemma {:induction false} AsWrittenNeverStartsOver(a: Ai, c: Controls, facing: Option<Pos>, s: Sense, dt: real, n: nat)
    requires a.state != "routine" && NumericId(s.id) >= 0
    ensures Repeat(a, c, facing, s, dt, false, n).ai.state != "routine"
    decreases n
  {
    if n > 0 {
      var f := Step(a, c, facing, s, dt, false);
      AsWrittenNeverStarts(a, c, facing, s, dt);
      AsWrittenNeverStartsOver(f.ai, f.controls, f.facing, s, dt, n - 1);
    }
  }

  /** `n` frames with the same surroundings. */
  function Repeat(a: Ai, c: Controls, facing: Option<Pos>, s: Sense, dt: real, everyFrame: bool, n: nat): Frame
    decreases n
  {
    if n == 0 then Frame(a, c, facing, None)
    else
      var f := Step(a, c, facing, s, dt, everyFrame);
      Repeat(f.ai, f.controls, f.facing, s, dt, everyFrame, n - 1)
  }

  /** A string id: "student_1" reads as the number 0. */
  lemma StudentIdIsZero()
    ensures NumericId(StrId("student_1")) == 0
  {
    var s := "student_1";
    assert Strings.TrimStart(s) == s by {
      assert !Strings.IsSpace(s[0]);
    }
    assert Strings.RadixPrefix(s) == (s, 10) by {
      assert s[0] != '0';
    }
    assert Strings.DigitValue(s[0], 10).None?;
    assert Strings.DigitRun(s, 10) == 0;
  }

  /**
   * With the start check on every far-away frame, an agent idle and waiting
   * for the destination it has stored leaves for it exactly on the frame
   * its timer passes the start delay, with a fresh route and the timer
   * reset; until then it keeps waiting, its timer counting up.
   */
  lemma StaggeredStart(a: Ai, desired: Pos, pos: Pos, numericId: int)
    requires DistSq(desired, pos) > 400.0 && a.state == "idle" && a.targetPos == Some(desired)
    ensures var b := Choose(a, desired, pos, numericId, true);
      && (b.state == "routine" <==> a.timer > StartDelay(numericId) as real)
      && (b.state == "routine" ==> b == a.(state := "routine", path := None, timer := 0.0))
      && (b.state != "routine" ==> b == a)
  {
  }

  /**
   * The start check on every frame changes nothing but the waiting: on an
   * agent not waiting idle for a stored target both versions agree.
   */
  lemma ChooseVersionsAgree(a: Ai, desired: Pos, pos: Pos, numericId: int)
    requires !(a.state == "idle" && a.targetPos.Some? && Abs(a.targetPos.value.x - desired.x) <= 5.0
               && Abs(a.targetPos.value.y - desired.y) <= 5.0)
    ensures Choose(a, desired, pos, numericId, true) == Choose(a, desired, pos, numericId, false)
  {
  }

  /**
   * An agent on its route, within 12 px of the next waypoint, drops that
   * waypoint and keeps going; with the route used up it turns idle, timer reset.
   */
  lemma WaypointReached(a: Ai, c: Controls, facing: Option<Pos>, s: Sense, face: Pos)
    requires a.state == "routine" && a.targetPos.Some? && a.path.Some?
    ensures var f := Execute(a, c, facing, s, face);
      && (|a.path.value| > 0 && DistSq(a.path.value[0], s.pos) < 144.0 ==>
            f.ai == a.(path := Some(a.path.value[1..])) && f.controls == c)
      && (|a.path.value| == 0 ==> f.ai == a.(state := "idle", timer := 0.0))
  {
  }

  /** A routine agent with no route asks for one; an unreachable target (no answer) leaves it idle with its timer reset. */
  lemma NoRouteIdles(a: Ai, c: Controls, facing: Option<Pos>, s: Sense, face: Pos)
    requires a.state == "routine" && a.targetPos.Some? && a.path.None?
    requires !s.hasPathfinder || s.found.None? || s.found == Some([])
    ensures var f := Execute(a, c, facing, s, face);
      f.ai.state == "idle" && f.ai.timer == 0.0 && f.controls == c && f.facing == facing
  {
  }

  /**
   * A routine agent farther than 12 px from its next waypoint steers: its
   * flags follow the direction past the ±0.3 dead zone, never two opposite
   * ones at once, and a route it has been stuck on for more than 2 s is dropped.
   */
  lemma Steering(a: Ai, c: Controls, facing: Option<Pos>, s: Sense, face: Pos)
    requires a.state == "routine" && a.targetPos.Some? && a.path.Some?
    requires |a.path.value| > 0 && DistSq(a.path.value[0], s.pos) >= 144.0
    ensures var f := Execute(a, c, facing, s, face);
      && f.controls.analog == Some(s.steer)
      && !(f.controls.left && f.controls.right) && !(f.controls.up && f.controls.down)
      && (f.controls.left <==> s.steer.x < -0.3) && (f.controls.down <==> s.steer.y > 0.3)
      && (s.speedSq < 25.0 && a.timer > 2000.0 <==> f.ai.path.None?)
      && f.ai.state == "routine" && f.facing == facing
  {
  }

  // ------------------------------------------------------------ components

  /** The `ai` component, updated in place. */
  class Brain {
    var state: string
    var timer: real
    var targetId: Option<string>
    var home: Pos
    var spots: Option<Spots>
    var targetPos: Option<Pos>
    var path: Option<seq<Pos>>

    constructor(home: Pos, spots: Option<Spots>)
      ensures Value() == Ai("idle", 0.0, None, home, spots, None, None)
    {
      state, timer, targetId := "idle", 0.0, None;
      this.home, this.spots := home, spots;
      targetPos, path := None, None;
    }

    function Value(): Ai
      reads this
    {
      Ai(state, timer, targetId, home, spots, targetPos, path)
    }
  }

  /** The `input` component. */
  class Input {
    var left: bool
    var right: bool
    var up: bool
    var down: bool
    var analogDir: Option<Pos>

    constructor()
      ensures Value() == Controls(false, false, false, false, None)
    {
      left, right, up, down, analogDir := false, false, false, false, None;
    }

    function Value(): Controls
      reads this
    {
      Controls(left, right, up, down, analogDir)
    }
  }

  /** The `facing` component. */
  class Facing {
    var x: real
    var y: real

    constructor(x: real, y: real)
      ensures this.x == x && this.y == y
    {
      this.x, this.y := x, y;
    }
  }

  /** An entity with `ai`, `body` and `input` components and perhaps a `facing`. */
  datatype AiEntity = AiEntity(ai: Brain, input: Input, facing: Option<Facing>)

  function Objects(e: AiEntity): set<object> {
    {e.ai, e.input} + (if e.facing.Some? then {e.facing.value} else {})
  }

  function FacingOf(e: AiEntity): Option<Pos>
    reads Objects(e)
  {
    if e.facing.Some? then Some(Pos(e.facing.value.x, e.facing.value.y)) else None
  }

  /** Step 0 in place. */
  method DuelPhase(e: AiEntity, s: Sense) returns (cast: Option<Cast>)
    modifies Objects(e)
    ensures var f := DuelStep(old(e.ai.Value()), old(e.input.Value()), old(FacingOf(e)), s);
      e.ai.Value() == f.ai && e.input.Value() == f.controls && FacingOf(e) == f.facing && cast == f.cast
  {
    cast := None;
    if s.duelTarget.Some? {
      e.input.analogDir := Some(s.duelMove);
      if e.facing.Some? {
        e.facing.value.x, e.facing.value.y := s.aim.x, s.aim.y;
      }
      if e.ai.timer > 2500.0 {
        cast := Some(Cast(s.player.GetOr(""), SpellShapes[s.spell], s.aim.x * 400.0, s.aim.y * 400.0));
        e.ai.timer := 0.0;
      }
    } else {
      e.ai.state := "idle";
      e.ai.timer := 0.0;
    }
  }

  /** Step 2 in place, with the start check on every far-away frame. */
  method ChoosePhase(ai: Brain, desired: Pos, pos: Pos, numericId: int)
    modifies ai
    ensures ai.Value() == Choose(old(ai.Value()), desired, pos, numericId, true)
  {
    if DistSq(desired, pos) > 400.0 {
      var changed := ai.targetPos.None? || Abs(ai.targetPos.value.x - desired.x) > 5.0
                     || Abs(ai.targetPos.value.y - desired.y) > 5.0;
      if changed && (ai.state != "idle" || ai.targetPos != Some(desired)) {
        ai.state := "idle";
        ai.timer := 0.0;
        ai.targetPos := Some(desired);
      }
      var startDelay := StartDelay(numericId);
      if ai.state == "idle" && ai.timer > startDelay as real {
        ai.state := "routine";
        ai.path := None;
        ai.timer := 0.0;
      }
    } else if ai.state != "idle" {
      ai.state := "idle";
      ai.timer := 0.0;
    }
  }

  /** Steering in place. */
  method SteerPhase(ai: Brain, input: Input, s: Sense)
    modifies ai, input
    ensures (ai.Value(), input.Value()) == Steer(old(ai.Value()), s)
  {
    input.analogDir := Some(s.steer);
    input.left := s.steer.x < -0.3;
    input.right := s.steer.x > 0.3;
    input.up := s.steer.y < -0.3;
    input.down := s.steer.y > 0.3;
    if s.speedSq < 25.0 && ai.timer > 2000.0 {
      ai.path := None;
      ai.timer := 0.0;
    }
  }

  /** Following a route in place. */
  method FollowPhase(ai: Brain, input: Input, s: Sense)
    modifies ai, input
    ensures (ai.Value(), input.Value()) == Follow(old(ai.Value()), old(input.Value()), s)
  {
    if ai.path.None? && s.hasPathfinder {
      ai.path := s.found;
    }
    if ai.path.Some? && |ai.path.value| > 0 {
      var next := ai.path.value[0];
      if DistSq(next, s.pos) < 144.0 {
        ai.path := Some(ai.path.value[1..]);
      } else {
        SteerPhase(ai, input, s);
      }
    } else {
      ai.state := "idle";
      ai.timer := 0.0;
    }
  }

  /** Step 3 in place. */
  method ExecutePhase(e: AiEntity, s: Sense, face: Pos)
    modifies Objects(e)
    ensures var f := Execute(old(e.ai.Value()), old(e.input.Value()), old(FacingOf(e)), s, face);
      e.ai.Value() == f.ai && e.input.Value() == f.controls && FacingOf(e) == f.facing
  {
    if e.ai.state == "routine" && e.ai.targetPos.Some? {
      FollowPhase(e.ai, e.input, s);
    } else if e.ai.state == "idle" {
      e.input.left, e.input.right, e.input.up, e.input.down := false, false, false, false;
      if e.facing.Some? {
        e.facing.value.x, e.facing.value.y := face.x, face.y;
      }
    }
  }

  /** The loop body for one entity, with the start check on every far-away frame. */
  method StepEntity(e: AiEntity, s: Sense, dt: real) returns (cast: Option<Cast>)
    modifies Objects(e)
    ensures var f := Step(old(e.ai.Value()), old(e.input.Value()), old(FacingOf(e)), s, dt, true);
      e.ai.Value() == f.ai && e.input.Value() == f.controls && FacingOf(e) == f.facing && cast == f.cast
  {
    e.ai.timer := e.ai.timer + dt;
    if e.ai.state == "duel" && e.ai.targetId.Some? && e.ai.targetId.value != "" && s.canCast {
      cast := DuelPhase(e, s);
      return;
    }
    DailyPhase(e, s);
    cast := None;
  }

  /** Steps 1 to 3 in place. */
  method DailyPhase(e: AiEntity, s: Sense)
    modifies Objects(e)
    ensures var f := Daily(old(e.ai.Value()), old(e.input.Value()), old(FacingOf(e)), s, true);
      e.ai.Value() == f.ai && e.input.Value() == f.controls && FacingOf(e) == f.facing && f.cast.None?
  {
    var plan := Destination(s.hour, e.ai.spots, e.ai.home, s.spread);
    ChoosePhase(e.ai, plan.desired, s.pos, NumericId(s.id));
    ExecutePhase(e, s, plan.facing);
  }

  /** Different entities share no component object. */
  ghost predicate Separate(entities: seq<AiEntity>) {
    forall i, j :: 0 <= i < j < |entities| ==> Objects(entities[i]) !! Objects(entities[j])
  }

  /** The module-level frame counter, which only paces the separation force. */
  class Routine {
    var frameCount: int

    constructor()
      ensures frameCount == 0
    {
      frameCount := 0;
    }

    /**
     * `AISystem(world, …, dt, …)`: the frame counter advances and every
     * entity takes one step with its own surroundings; the casts come out
     * in entity order.
     */
    method Run(entities: seq<AiEntity>, senses: seq<Sense>, dt: real) returns (casts: seq<Option<Cast>>)
      requires |senses| == |entities| && Separate(entities)
      modifies this, set e, o | e in entities && o in Objects(e) :: o
      ensures frameCount == old(frameCount) + 1
      ensures |casts| == |entities|
      ensures forall i :: 0 <= i < |entities| ==>
        var f := Step(old(entities[i].ai.Value()), old(entities[i].input.Value()), old(FacingOf(entities[i])), senses[i], dt, true);
        entities[i].ai.Value() == f.ai && entities[i].input.Value() == f.controls
        && FacingOf(entities[i]) == f.facing && casts[i] == f.cast
    {
      frameCount := frameCount + 1;
      casts := [];
      for i := 0 to |entities|
        invariant frameCount == old(frameCount) + 1
        invariant |casts| == i
        invariant forall j :: 0 <= j < i ==>
          var f := Step(old(entities[j].ai.Value()), old(entities[j].input.Value()), old(FacingOf(entities[j])), senses[j], dt, true);
          entities[j].ai.Value() == f.ai && entities[j].input.Value() == f.controls
          && FacingOf(entities[j]) == f.facing && casts[j] == f.cast
        invariant forall j :: i <= j < |entities| ==>
          entities[j].ai.Value() == old(entities[j].ai.Value()) && entities[j].input.Value() == old(entities[j].input.Value())
          && FacingOf(entities[j]) == old(FacingOf(entities[j]))
      {
        var c := StepEntity(entities[i], senses[i], dt);
        casts := casts + [c];
      }
    }
  }
}
