/**
 * src/shared/systems/StatsSystem.ts: each pass clamps every player's hp
 * and mp to their maxima, then grants at most one level when enough
 * experience has been gathered and the level is below 100.
 */
module StatsSystem {

  /** The highest level a player can reach. */
  const MaxLevel: int := 100

  /** The values of a stats component. */
  datatype StatsRec = StatsRec(hp: int, maxHp: int, mp: int, maxMp: int,
                               exp: int, expToNext: int, level: int, speed: real)

  /** `Math.floor(x * 1.5)` on an integer. */
  function NextThreshold(expToNext: int): (n: int)
    ensures 2 * n <= 3 * expToNext < 2 * n + 2
  {
    ((expToNext as real) * 1.5).Floor
  }

  /** Whether the pass levels the player up, judged after the clamps. */
  predicate LevelsUp(s: StatsRec) {
    s.exp >= s.expToNext && s.level < MaxLevel
  }

  /** The hp and mp clamps. */
  function Clamped(s: StatsRec): (c: StatsRec)
    ensures c.hp == (if s.hp > s.maxHp then s.maxHp else s.hp)
    ensures c.mp == (if s.mp > s.maxMp then s.maxMp else s.mp)
    ensures c == s.(hp := c.hp, mp := c.mp)
  {
    var a := if s.hp > s.maxHp then s.(hp := s.maxHp) else s;
    if a.mp > a.maxMp then a.(mp := a.maxMp) else a
  }

  /** The stats after one pass. */
  function Step(s: StatsRec): StatsRec {
    var c := Clamped(s);
    if LevelsUp(c) then
      var maxHp, maxMp := c.maxHp + 10, c.maxMp + 5;
      StatsRec(maxHp, maxHp, maxMp, maxMp, c.exp - c.expToNext, NextThreshold(c.expToNext), c.level + 1, c.speed + 0.5)
    else c
  }

  /** After a pass hp and mp are within their maxima, and a level at most 100 stays at most 100, rising by at most one. */
  lemma StepBounds(s: StatsRec)
    ensures var t := Step(s);
      && t.hp <= t.maxHp && t.mp <= t.maxMp
      && (t.level == s.level || (t.level == s.level + 1 && s.level < MaxLevel))
      && (s.level <= MaxLevel ==> t.level <= MaxLevel)
  {
  }

  /**
   * A level-up spends the old threshold's experience, raises the threshold
   * to one and a half times the old one (floored), adds 10 to max hp and 5
   * to max mp, refills both, and adds 0.5 to the speed.
   */
  lemma StepLevelUp(s: StatsRec)
    requires LevelsUp(s)
    ensures var t := Step(s);
      && t.level == s.level + 1 && t.exp == s.exp - s.expToNext
      && 2 * t.expToNext <= 3 * s.expToNext < 2 * t.expToNext + 2
      && t.maxHp == s.maxHp + 10 && t.hp == t.maxHp && t.maxMp == s.maxMp + 5 && t.mp == t.maxMp
      && t.speed == s.speed + 0.5
  {
  }

  /** Without a level-up, the clamps are the only change. */
  lemma StepNoLevelUp(s: StatsRec)
    requires !LevelsUp(s)
    ensures var t := Step(s);
      t.(hp := s.hp, mp := s.mp) == s && t.hp <= s.hp && t.mp <= s.mp
  {
  }

  /** An entity's stats component. */
  class Stats {
    var hp: int
    var maxHp: int
    var mp: int
    var maxMp: int
    var exp: int
    var expToNext: int
    var level: int
    var speed: real

    constructor(s: StatsRec)
      ensures Value() == s
    {
      hp, maxHp, mp, maxMp := s.hp, s.maxHp, s.mp, s.maxMp;
      exp, expToNext, level, speed := s.exp, s.expToNext, s.level, s.speed;
    }

    /** The component's values. */
    function Value(): StatsRec
      reads this
    {
      StatsRec(hp, maxHp, mp, maxMp, exp, expToNext, level, speed)
    }

    /** The loop body for this component: the source's updates, in place. */
    method Update()
      modifies this
      ensures Value() == Step(old(Value()))
    {
      if hp > maxHp {
        hp := maxHp;
      }
      if mp > maxMp {
        mp := maxMp;
      }
      if exp >= expToNext && level < 100 {
        level := level + 1;
        exp := exp - expToNext;
        expToNext := ((expToNext as real) * 1.5).Floor;
        maxHp := maxHp + 10;
        hp := maxHp;
        maxMp := maxMp + 5;
        mp := maxMp;
        speed := speed + 0.5;
      }
    }
  }

  /** One pass over the players' stats components, each listed once. */
  method Run(entities: seq<Stats>)
    requires forall i, j :: 0 <= i < j < |entities| ==> entities[i] != entities[j]
    modifies set e | e in entities
    ensures forall e :: e in entities ==> e.Value() == Step(old(e.Value()))
  {
    for i := 0 to |entities|
      invariant forall j :: 0 <= j < i ==> entities[j].Value() == Step(old(entities[j].Value()))
      invariant forall j :: i <= j < |entities| ==> entities[j].Value() == old(entities[j].Value())
    {
      entities[i].Update();
    }
  }
}
