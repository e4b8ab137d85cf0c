/**
 * src/shared/systems/AISystem.ts: a three-state wandering brain. Every
 * step adds `dt` to the timer; an idle agent stands still and after more
 * than 2 s starts patrolling in one of 8 directions, a patrol lasts more
 * than 1 s and a chase more than 5 s before the agent is idle again.
 *
 * `dir` stands for `Math.floor(Math.random() * 8)`, one value per agent.
 */
module AiSystem {

  /** The four movement flags of an input component. */
  datatype Move = Move(left: bool, right: bool, up: bool, down: bool)

  const Still: Move := Move(false, false, false, false)

  /**
   * The direction table: 0 to 3 are left, right, up and down alone; 4 to 7
   * are the diagonals up-left, down-left, up-right and down-right.
   */
  function Direction(dir: nat): (m: Move)
    ensures !(m.left && m.right) && !(m.up && m.down)
    ensures dir < 4 ==> (if m.left then 1 else 0) + (if m.right then 1 else 0) + (if m.up then 1 else 0) + (if m.down then 1 else 0) == 1
    ensures 4 <= dir < 8 ==> (m.left || m.right) && (m.up || m.down)
    ensures dir >= 8 ==> m == Still
  {
    Move(dir == 0 || dir == 4 || dir == 5, dir == 1 || dir == 6 || dir == 7,
         dir == 2 || dir == 4 || dir == 6, dir == 3 || dir == 5 || dir == 7)
  }

  /** The brain's state and timer together with the movement flags. */
  datatype Agent = Agent(state: string, timer: real, move: Move)

  /** One step of one agent. */
  function Step(a: Agent, dt: real, dir: nat): Agent {
    var timer := a.timer + dt;
    if a.state == "idle" then
      if timer > 2.0 then Agent("patrol", 0.0, Direction(dir)) else Agent("idle", timer, Still)
    else if a.state == "patrol" then
      if timer > 1.0 then Agent("idle", 0.0, a.move) else a.(timer := timer)
    else if a.state == "chase" then
      if timer > 5.0 then Agent("idle", 0.0, a.move) else a.(timer := timer)
    else a.(timer := timer)
  }

  /**
   * An idle agent switches to patrol exactly when its timer passes 2 s,
   * with the timer reset and the drawn direction's flags; otherwise it
   * stays idle with all flags cleared and the time added.
   */
  lemma IdleStep(a: Agent, dt: real, dir: nat)
    requires a.state == "idle"
    ensures var b := Step(a, dt, dir);
      && (b.state == "patrol" <==> a.timer + dt > 2.0)
      && (b.state == "patrol" ==> b.timer == 0.0 && b.move == Direction(dir))
      && (b.state != "patrol" ==> b == Agent("idle", a.timer + dt, Still))
  {
  }

  /** A patrol keeps its flags, and ends in idle with the timer reset once it passes 1 s; a chase likewise after 5 s. */
  lemma PatrolAndChaseStep(a: Agent, dt: real, dir: nat)
    requires a.state == "patrol" || a.state == "chase"
    ensures var b := Step(a, dt, dir);
      var limit := if a.state == "patrol" then 1.0 else 5.0;
      && b.move == a.move
      && (a.timer + dt > limit ==> b.state == "idle" && b.timer == 0.0)
      && (a.timer + dt <= limit ==> b == a.(timer := a.timer + dt))
  {
  }

  /** An agent in no known state only counts time. */
  lemma OtherStep(a: Agent, dt: real, dir: nat)
    requires a.state != "idle" && a.state != "patrol" && a.state != "chase"
    ensures Step(a, dt, dir) == a.(timer := a.timer + dt)
  {
  }

  /** An `ai` component. */
  class Brain {
    var state: string
    var timer: real

    constructor(state: string, timer: real)
      ensures this.state == state && this.timer == timer
    {
      this.state, this.timer := state, timer;
    }
  }

  /** The movement flags of an `input` component (the attack flag is not touched here). */
  class Input {
    var left: bool
    var right: bool
    var up: bool
    var down: bool

    constructor()
      ensures Flags() == Still
    {
      left, right, up, down := false, false, false, false;
    }

    function Flags(): Move
      reads this
    {
      Move(left, right, up, down)
    }
  }

  /** An entity with `ai`, `body` and `input` components; the body is not read. */
  datatype AiEntity = AiEntity(ai: Brain, input: Input)

  /** The agent an entity's components hold. */
  function AgentOf(e: AiEntity): Agent
    reads e.ai, e.input
  {
    Agent(e.ai.state, e.ai.timer, e.input.Flags())
  }

  /** The loop body for one entity: the source's updates, in place. */
  method StepEntity(e: AiEntity, dt: real, dir: nat)
    modifies e.ai, e.input
    ensures AgentOf(e) == Step(old(AgentOf(e)), dt, dir)
  {
    e.ai.timer := e.ai.timer + dt;
    if e.ai.state == "idle" {
      e.input.left, e.input.right, e.input.up, e.input.down := false, false, false, false;
      if e.ai.timer > 2.0 {
        e.ai.state := "patrol";
        e.ai.timer := 0.0;
        e.input.left := dir == 0 || dir == 4 || dir == 5;
        e.input.right := dir == 1 || dir == 6 || dir == 7;
        e.input.up := dir == 2 || dir == 4 || dir == 6;
        e.input.down := dir == 3 || dir == 5 || dir == 7;
      }
    } else if e.ai.state == "patrol" {
      if e.ai.timer > 1.0 {
        e.ai.state := "idle";
        e.ai.timer := 0.0;
      }
    } else if e.ai.state == "chase" {
      if e.ai.timer > 5.0 {
        e.ai.state := "idle";
        e.ai.timer := 0.0;
      }
    }
  }

  /** Every entity's components hold distinct objects. */
  ghost predicate Separate(entities: seq<AiEntity>) {
    forall i, j :: 0 <= i < j < |entities| ==>
      entities[i].ai != entities[j].ai && entities[i].input != entities[j].input
  }

  /** `AISystem(world, dt)`: one step for every entity, the `i`-th with direction `dirs[i]`. */
  method Run(entities: seq<AiEntity>, dt: real, dirs: seq<nat>)
    requires |dirs| == |entities| && Separate(entities)
    modifies set e | e in entities :: e.ai, set e | e in entities :: e.input
    ensures forall i :: 0 <= i < |entities| ==> AgentOf(entities[i]) == Step(old(AgentOf(entities[i])), dt, dirs[i])
  {
    for i := 0 to |entities|
      invariant forall j :: 0 <= j < i ==> AgentOf(entities[j]) == Step(old(AgentOf(entities[j])), dt, dirs[j])
      invariant forall j :: i <= j < |entities| ==> AgentOf(entities[j]) == old(AgentOf(entities[j]))
    {
      StepEntity(entities[i], dt, dirs[i]);
    }
  }
}
