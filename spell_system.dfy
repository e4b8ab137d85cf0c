/**
 * dist-server/server/systems/SpellSystem.js: the projectile tick of the
 * build whose spells collide by rock-paper-scissors.
 *
 * Each tick walks a snapshot of the projectiles twice. The first walk
 * moves each projectile by its velocity, scores a hit when the ray cast
 * along the move strikes a player other than the caster, and marks the
 * projectile for removal after a hit or once it is older than 2000 ms.
 * The second walk resolves every pair of unmarked projectiles less than
 * 30 px apart by rock-paper-scissors, marking the loser, or both on equal
 * types. Only then are the marked projectiles deleted.
 *
 * The ray cast of the physics world arrives as `struck`: per snapshot
 * entry, the session id of the player body the ray struck, if any. The
 * clock arrives as `now`. The call to `addPrestige` is recorded in
 * `awards`, and the log lines are not modelled.
 */
module SpellSystem {
  import opened Wrappers
  import Strings
  import GameConfig
  import SpellRegistry

  /** The fields of a projectile the tick reads and writes. */
  datatype Proj = Proj(ownerId: string, spellId: string, x: real, y: real, vx: real, vy: real, creationTime: int)

  /** The fields of a player the duel score touches. */
  datatype Duellist = Duellist(username: string, duelScore: int)

  /** The fields of an entity's AI the end of a duel resets. */
  datatype Mind = Mind(state: string, targetId: Option<string>)

  /** One `addPrestige(sessionId, amount)` call. */
  datatype Award = Award(sessionId: string, amount: int)

  /** The part of the room the tick touches. */
  datatype World = World(projectiles: map<string, Proj>, players: map<string, Duellist>, minds: map<string, Mind>, awards: seq<Award>)

  const MaxAgeMs: int := 2000
  const ClashReachSq: real := 900.0
  const WinningScore: int := 2
  const WinPrestige: int := 20

  // ------------------------------------------------------ classification

  /** `getBase`: the first of circle, square, triangle the id contains, and circle when it contains none. */
  function Base(spellId: string): (b: string)
    ensures b in GameConfig.RpsMap
  {
    if Strings.Contains(spellId, "circle") then "circle"
    else if Strings.Contains(spellId, "square") then "square"
    else if Strings.Contains(spellId, "triangle") then "triangle"
    else "circle"
  }

  /** Square needs no circle before it, triangle neither circle nor square, and circle is the default. */
  lemma BaseSpec(spellId: string)
    ensures var b := Base(spellId);
      && (b == "square" <==> !Strings.Contains(spellId, "circle") && Strings.Contains(spellId, "square"))
      && (b == "triangle" <==> !Strings.Contains(spellId, "circle") && !Strings.Contains(spellId, "square") && Strings.Contains(spellId, "triangle"))
      && (b == "circle" <==> (Strings.Contains(spellId, "circle")
           || (!Strings.Contains(spellId, "square") && !Strings.Contains(spellId, "triangle"))))
  {
  }

  /** `RPS_MAP[getBase(spellId)]`. */
  function TypeOf(spellId: string): string {
    GameConfig.RpsMap[Base(spellId)]
  }

  /** Every spell has one of the three types, and rock exactly for the circle shape. */
  lemma TypeOfSpec(spellId: string)
    ensures TypeOf(spellId) in {"rock", "paper", "scissors"} && TypeOf(spellId) in GameConfig.RpsWinner
    ensures TypeOf(spellId) == "rock" <==> Base(spellId) == "circle"
  {
  }

  /**
   * This build classifies spells as the shared registry does, which tries
   * the same three keys in the same order, except that an id matching no
   * key counts as rock where the registry calls it unknown.
   */
  lemma BaseAgreesWithRegistry(spellId: string)
    ensures var t := SpellRegistry.GetSpellType(spellId);
      && (t == SpellRegistry.Unknown ==> Base(spellId) == "circle")
      && (t != SpellRegistry.Unknown ==> Base(spellId) == SpellRegistry.Registry[SpellRegistry.FirstKeyIn(spellId, 0)].id)
  {
    SpellRegistry.FirstKeyInSpec(spellId, 0);
    var k := SpellRegistry.FirstKeyIn(spellId, 0);
    assert SpellRegistry.Registry[0].id == "circle";
    assert SpellRegistry.Registry[1].id == "square";
    assert SpellRegistry.Registry[2].id == "triangle";
    if k == 1 {
      assert !Strings.Contains(spellId, "circle");
    } else if k == 2 {
      assert !Strings.Contains(spellId, "circle") && !Strings.Contains(spellId, "square");
    } else if k == 3 {
      assert !Strings.Contains(spellId, "circle") && !Strings.Contains(spellId, "square") && !Strings.Contains(spellId, "triangle");
    }
  }

  // ------------------------------------------------------------ resolution

  /** The ids `resolveRPS` marks: both on equal types, `idB` when A's type beats B's, `idA` otherwise. */
  function Marks(typeA: string, typeB: string, idA: string, idB: string): set<string> {
    if typeA == typeB then {idA, idB}
    else if typeA in GameConfig.RpsWinner && GameConfig.RpsWinner[typeA] == typeB then {idB}
    else {idA}
  }

  /** `resolveRPS(a, b, idA, idB, toRemove)`: `toRemove` with the loser or losers of the clash added. */
  function ResolveRps(a: Proj, b: Proj, idA: string, idB: string, toRemove: set<string>): set<string> {
    toRemove + Marks(TypeOf(a.spellId), TypeOf(b.spellId), idA, idB)
  }

  /**
   * A clash marks both projectiles exactly when their types are equal, and
   * otherwise exactly one: B when rock meets scissors, scissors paper or
   * paper rock, A in the three reverse cases.
   */
  lemma ResolveRpsSpec(a: Proj, b: Proj, idA: string, idB: string, toRemove: set<string>)
    requires idA != idB
    ensures var ta, tb, r := TypeOf(a.spellId), TypeOf(b.spellId), ResolveRps(a, b, idA, idB, toRemove);
      && toRemove <= r && r - toRemove <= {idA, idB}
      && (ta == tb ==> idA in r && idB in r)
      && (ta != tb ==> r == toRemove + {idA} || r == toRemove + {idB})
      && (ta != tb && ta in GameConfig.RpsWinner && GameConfig.RpsWinner[ta] == tb ==> r == toRemove + {idB})
      && (ta != tb && tb in GameConfig.RpsWinner && GameConfig.RpsWinner[tb] == ta ==> r == toRemove + {idA})
  {
    TypeOfSpec(a.spellId);
    TypeOfSpec(b.spellId);
  }

  // ------------------------------------------------------------ duel score

  /** `stopAI(id)`: an entity with an AI goes idle without a target. */
  function StopAi(minds: map<string, Mind>, id: string): map<string, Mind> {
    if id in minds then minds[id := Mind("idle", None)] else minds
  }

  /**
   * `handlePlayerHit(attackerId, victimId)`: with both players present the
   * attacker scores one; a score reaching 2 wins the duel, which resets
   * both scores, stops both AIs and awards the winner 20 prestige.
   */
  function Hit(w: World, attackerId: string, victimId: string): World {
    if attackerId !in w.players || victimId !in w.players then w
    else
      var a := w.players[attackerId];
      var scored := w.players[attackerId := a.(duelScore := a.duelScore + 1)];
      if a.duelScore + 1 >= WinningScore then
        var reset := scored[attackerId := scored[attackerId].(duelScore := 0)];
        w.(players := reset[victimId := reset[victimId].(duelScore := 0)],
           minds := StopAi(StopAi(w.minds, attackerId), victimId),
           awards := w.awards + [Award(attackerId, WinPrestige)])
      else w.(players := scored)
  }

  /**
   * What a hit does: nothing without both players; otherwise the attacker's
   * score rises by one, and on reaching 2 both scores return to 0, both
   * AIs go idle with no target and the winner is awarded 20. Projectiles,
   * other players and other AIs are untouched.
   */
  lemma HitSpec(w: World, attackerId: string, victimId: string)
    ensures var t := Hit(w, attackerId, victimId);
      && t.projectiles == w.projectiles && t.players.Keys == w.players.Keys && t.minds.Keys == w.minds.Keys
      && (forall id :: id in w.players && id != attackerId && id != victimId ==> t.players[id] == w.players[id])
      && (forall id :: id in w.minds && id != attackerId && id != victimId ==> t.minds[id] == w.minds[id])
      && (attackerId !in w.players || victimId !in w.players ==> t == w)
      && (attackerId in w.players && victimId in w.players ==>
            var before := w.players[attackerId].duelScore;
            && t.players[attackerId].username == w.players[attackerId].username
            && (before + 1 < WinningScore ==>
                  t.players[attackerId].duelScore == before + 1 && t.minds == w.minds && t.awards == w.awards
                  && (victimId != attackerId ==> t.players[victimId] == w.players[victimId]))
            && (before + 1 >= WinningScore ==>
                  && t.players[attackerId].duelScore == 0 && t.players[victimId].duelScore == 0
                  && t.players[victimId].username == w.players[victimId].username
                  && (attackerId in w.minds ==> t.minds[attackerId] == Mind("idle", None))
                  && (victimId in w.minds ==> t.minds[victimId] == Mind("idle", None))
                  && t.awards == w.awards + [Award(attackerId, WinPrestige)]))
  {
  }

  /** Scores never rest at the winning mark: a room whose scores lie in 0..1 keeps them there. */
  lemma HitKeepsScoresBelowWin(w: World, attackerId: string, victimId: string)
    requires forall id :: id in w.players ==> 0 <= w.players[id].duelScore < WinningScore
    ensures var t := Hit(w, attackerId, victimId);
      forall id :: id in t.players ==> 0 <= t.players[id].duelScore < WinningScore
  {
  }

  /** Two hits on the same opponent from a fresh score win the duel and award 20 prestige. */
  lemma TwoHitsWin(w: World, attackerId: string, victimId: string)
    requires attackerId in w.players && victimId in w.players && attackerId != victimId
    requires w.players[attackerId].duelScore == 0
    ensures var t := Hit(Hit(w, attackerId, victimId), attackerId, victimId);
      && t.awards == w.awards + [Award(attackerId, WinPrestige)]
      && t.players[attackerId].duelScore == 0 && t.players[victimId].duelScore == 0
  {
    var once := Hit(w, attackerId, victimId);
    assert once.players[attackerId].duelScore == 1 && once.awards == w.awards;
  }

  // ----------------------------------------------------------- first walk

  /** The move of one tick, `v * dt / 1000` on each axis. */
  function StepX(p: Proj, dt: real): real { p.vx * dt / 1000.0 }
  function StepY(p: Proj, dt: real): real { p.vy * dt / 1000.0 }

  /** `dist > 0`: the move has positive length. */
  predicate Moving(p: Proj, dt: real) {
    StepX(p, dt) * StepX(p, dt) + StepY(p, dt) * StepY(p, dt) > 0.0
  }

  /** The ray cast along the move struck a player other than the caster. */
  predicate Strikes(p: Proj, dt: real, struck: Option<string>) {
    Moving(p, dt) && struck.Some? && struck.value != p.ownerId
  }

  /** The projectile after its move. */
  function Moved(p: Proj, dt: real): Proj {
    p.(x := p.x + StepX(p, dt), y := p.y + StepY(p, dt))
  }

  /** Older than 2000 ms at `now`. */
  predicate Expired(p: Proj, now: int) {
    now - p.creationTime > MaxAgeMs
  }

  /** The first walk's work on the snapshot entry of the live projectile `id`. */
  function SweepOne(w: World, id: string, dt: real, now: int, struck: Option<string>, marks: set<string>): (World, set<string>)
    requires id in w.projectiles
  {
    var p := w.projectiles[id];
    var hit := Strikes(p, dt, struck);
    var w1 := if hit then Hit(w, p.ownerId, struck.value) else w;
    var m1 := if hit then marks + {id} else marks;
    (w1.(projectiles := w1.projectiles[id := Moved(p, dt)]), if Expired(p, now) then m1 + {id} else m1)
  }

  /** The first walk over the snapshot `order` from entry `i` on. */
  function Sweep(w: World, order: seq<string>, struck: seq<Option<string>>, dt: real, now: int, i: nat, marks: set<string>): (World, set<string>)
    requires i <= |order| == |struck|
    decreases |order| - i
  {
    if i == |order| then (w, marks)
    else if order[i] in marks || order[i] !in w.projectiles then Sweep(w, order, struck, dt, now, i + 1, marks)
    else
      var next := SweepOne(w, order[i], dt, now, struck[i], marks);
      Sweep(next.0, order, struck, dt, now, i + 1, next.1)
  }

  /** The walk from entry `i` is the walk from `i + 1` after entry `i`. */
  lemma SweepStep(w: World, order: seq<string>, struck: seq<Option<string>>, dt: real, now: int, i: nat, marks: set<string>)
    requires i < |order| == |struck|
    ensures Sweep(w, order, struck, dt, now, i, marks) ==
      if order[i] in marks || order[i] !in w.projectiles then Sweep(w, order, struck, dt, now, i + 1, marks)
      else Sweep(SweepOne(w, order[i], dt, now, struck[i], marks).0, order, struck, dt, now, i + 1, SweepOne(w, order[i], dt, now, struck[i], marks).1)
  {
  }

  /** The first walk keeps the projectile keys, only adds marks, and changes only creation-preserving fields. */
  lemma {:induction false} SweepKeeps(w: World, order: seq<string>, struck: seq<Option<string>>, dt: real, now: int, i: nat, marks: set<string>)
    requires i <= |order| == |struck|
    ensures var r := Sweep(w, order, struck, dt, now, i, marks);
      && r.0.projectiles.Keys == w.projectiles.Keys && marks <= r.1
      && (forall id :: id in w.projectiles ==> r.0.projectiles[id].creationTime == w.projectiles[id].creationTime)
    decreases |order| - i
  {
    if i < |order| {
      if order[i] in marks || order[i] !in w.projectiles {
        SweepKeeps(w, order, struck, dt, now, i + 1, marks);
      } else {
        var next := SweepOne(w, order[i], dt, now, struck[i], marks);
        var p := w.projectiles[order[i]];
        assert Strikes(p, dt, struck[i]) ==> Hit(w, p.ownerId, struck[i].value).projectiles == w.projectiles;
        SweepKeeps(next.0, order, struck, dt, now, i + 1, next.1);
      }
    }
  }

  /**
   * Over a snapshot whose entries are distinct and not yet marked, the
   * first walk moves each listed projectile by exactly one step and leaves
   * the others where they are.
   */
  lemma {:induction false} SweepMoves(w: World, order: seq<string>, struck: seq<Option<string>>, dt: real, now: int, i: nat, marks: set<string>)
    requires i <= |order| == |struck|
    requires forall a, b :: i <= a < b < |order| ==> order[a] != order[b]
    requires forall k :: i <= k < |order| ==> order[k] !in marks
    ensures var r := Sweep(w, order, struck, dt, now, i, marks);
      forall id :: id in w.projectiles ==>
        id in r.0.projectiles && r.0.projectiles[id] == if id in order[i..] then Moved(w.projectiles[id], dt) else w.projectiles[id]
    decreases |order| - i
  {
    if i == |order| {
      assert Sweep(w, order, struck, dt, now, i, marks) == (w, marks);
    } else {
      var r := Sweep(w, order, struck, dt, now, i, marks);
      assert order[i..] == [order[i]] + order[i + 1..];
      if order[i] !in w.projectiles {
        assert r == Sweep(w, order, struck, dt, now, i + 1, marks);
        SweepMoves(w, order, struck, dt, now, i + 1, marks);
      } else {
        var id0 := order[i];
        var p := w.projectiles[id0];
        var next := SweepOne(w, id0, dt, now, struck[i], marks);
        assert r == Sweep(next.0, order, struck, dt, now, i + 1, next.1);
        assert next.0.projectiles == w.projectiles[id0 := Moved(p, dt)] by {
          assert Strikes(p, dt, struck[i]) ==> Hit(w, p.ownerId, struck[i].value).projectiles == w.projectiles;
        }
        assert next.1 <= marks + {id0};
        SweepMoves(next.0, order, struck, dt, now, i + 1, next.1);
      }
    }
  }

  /** Every snapshot projectile older than 2000 ms is marked by the first walk. */
  lemma {:induction false} SweepMarksExpired(w: World, order: seq<string>, struck: seq<Option<string>>, dt: real, now: int, i: nat, marks: set<string>)
    requires i <= |order| == |struck|
    ensures var r := Sweep(w, order, struck, dt, now, i, marks);
      forall k :: i <= k < |order| && order[k] in w.projectiles && Expired(w.projectiles[order[k]], now) ==> order[k] in r.1
    decreases |order| - i
  {
    if i < |order| {
      var r := Sweep(w, order, struck, dt, now, i, marks);
      if order[i] in marks || order[i] !in w.projectiles {
        SweepMarksExpired(w, order, struck, dt, now, i + 1, marks);
        SweepKeeps(w, order, struck, dt, now, i + 1, marks);
      } else {
        var next := SweepOne(w, order[i], dt, now, struck[i], marks);
        var p := w.projectiles[order[i]];
        assert Strikes(p, dt, struck[i]) ==> Hit(w, p.ownerId, struck[i].value).projectiles == w.projectiles;
        assert next.0.projectiles.Keys == w.projectiles.Keys;
        assert forall id :: id in w.projectiles ==> next.0.projectiles[id].creationTime == w.projectiles[id].creationTime;
        SweepMarksExpired(next.0, order, struck, dt, now, i + 1, next.1);
        SweepKeeps(next.0, order, struck, dt, now, i + 1, next.1);
      }
    }
  }

  // ---------------------------------------------------------- second walk

  /** `distSq < 900`: the projectiles of keys `a` and `b` are less than 30 px apart. */
  predicate Near(ps: map<string, Proj>, a: string, b: string) {
    a in ps && b in ps
    && (ps[a].x - ps[b].x) * (ps[a].x - ps[b].x) + (ps[a].y - ps[b].y) * (ps[a].y - ps[b].y) < ClashReachSq
  }

  /** The inner loop of the second walk: entry `i` against the entries from `j` on. */
  function RowMarks(ps: map<string, Proj>, order: seq<string>, i: nat, j: nat, marks: set<string>): set<string>
    requires i < |order| && j <= |order|
    decreases |order| - j
  {
    if j == |order| then marks
    else
      var idA, idB := order[i], order[j];
      var next := if idB !in marks && Near(ps, idA, idB) then ResolveRps(ps[idA], ps[idB], idA, idB, marks) else marks;
      RowMarks(ps, order, i, j + 1, next)
  }

  /** The row from `j` is the row from `j + 1` after the pair `(i, j)`. */
  lemma RowMarksStep(ps: map<string, Proj>, order: seq<string>, i: nat, j: nat, marks: set<string>)
    requires i < |order| && j < |order|
    ensures RowMarks(ps, order, i, j, marks) == RowMarks(ps, order, i, j + 1,
      if order[j] !in marks && Near(ps, order[i], order[j]) then ResolveRps(ps[order[i]], ps[order[j]], order[i], order[j], marks) else marks)
  {
  }

  /** The outer loop of the second walk, from entry `i` on; an entry already marked starts no row. */
  function ClashMarks(ps: map<string, Proj>, order: seq<string>, i: nat, marks: set<string>): set<string>
    requires i <= |order|
    decreases |order| - i
  {
    if i == |order| then marks
    else ClashMarks(ps, order, i + 1, if order[i] in marks then marks else RowMarks(ps, order, i, i + 1, marks))
  }

  /**
   * A row only adds marks, and what it adds is its leading projectile or a
   * later one within 30 px of it and not marked before.
   */
  lemma {:induction false} RowMarksNear(ps: map<string, Proj>, order: seq<string>, i: nat, j: nat, marks: set<string>)
    requires i < |order| && j <= |order|
    ensures var r := RowMarks(ps, order, i, j, marks);
      && marks <= r
      && forall x :: x in r - marks ==> x == order[i] || exists k :: (j <= k < |order| && x == order[k] && Near(ps, order[i], order[k]))
    decreases |order| - j
  {
    if j < |order| {
      var idA, idB := order[i], order[j];
      var next := if idB !in marks && Near(ps, idA, idB) then ResolveRps(ps[idA], ps[idB], idA, idB, marks) else marks;
      RowMarksNear(ps, order, i, j + 1, next);
      var r := RowMarks(ps, order, i, j, marks);
      forall x | x in r - marks
        ensures x == order[i] || exists k :: (j <= k < |order| && x == order[k] && Near(ps, order[i], order[k]))
      {
        if x in next - marks && x != order[i] {
          assert j <= j < |order| && x == order[j] && Near(ps, order[i], order[j]);
        } else if x !in next - marks {
          assert x in r - next;
        }
      }
    }
  }

  /** With no projectile from `j` on within 30 px of the leading one, a row marks nothing. */
  lemma {:induction false} RowMarksNothingAlone(ps: map<string, Proj>, order: seq<string>, i: nat, j: nat, marks: set<string>)
    requires i < |order| && j <= |order|
    requires forall k :: j <= k < |order| ==> !Near(ps, order[i], order[k])
    ensures RowMarks(ps, order, i, j, marks) == marks
    decreases |order| - j
  {
    if j < |order| {
      RowMarksNothingAlone(ps, order, i, j + 1, marks);
    }
  }

  /** The leading projectile of a row is marked by it only through a clash with a later projectile within 30 px. */
  lemma {:induction false} RowLeaderNeedsPartner(ps: map<string, Proj>, order: seq<string>, i: nat, j: nat, marks: set<string>)
    requires i < |order| && j <= |order| && order[i] !in marks
    ensures order[i] in RowMarks(ps, order, i, j, marks) ==> exists k :: (j <= k < |order| && Near(ps, order[i], order[k]))
    decreases |order| - j
  {
    if j < |order| {
      var idA, idB := order[i], order[j];
      var near := idB !in marks && Near(ps, idA, idB);
      var next := if near then ResolveRps(ps[idA], ps[idB], idA, idB, marks) else marks;
      if !near {
        RowLeaderNeedsPartner(ps, order, i, j + 1, next);
      }
    }
  }

  /** The second walk only adds marks; a projectile marked before it is never resolved again. */
  lemma {:induction false} ClashMarksGrow(ps: map<string, Proj>, order: seq<string>, i: nat, marks: set<string>)
    requires i <= |order|
    ensures marks <= ClashMarks(ps, order, i, marks)
    decreases |order| - i
  {
    if i < |order| {
      var next := if order[i] in marks then marks else RowMarks(ps, order, i, i + 1, marks);
      if order[i] !in marks {
        RowMarksNear(ps, order, i, i + 1, marks);
      }
      ClashMarksGrow(ps, order, i + 1, next);
    }
  }

  /** The whole tick: the two walks, then the marked projectiles deleted. */
  function Tick(w: World, order: seq<string>, struck: seq<Option<string>>, dt: real, now: int): World
    requires |order| == |struck|
  {
    var swept := Sweep(w, order, struck, dt, now, 0, {});
    var marks := ClashMarks(swept.0.projectiles, order, 0, swept.1);
    swept.0.(projectiles := swept.0.projectiles - marks)
  }

  /**
   * After a tick no snapshot projectile older than 2000 ms is left and no
   * projectile appears that was not there before.
   */
  lemma TickRemovesExpired(w: World, order: seq<string>, struck: seq<Option<string>>, dt: real, now: int)
    requires |order| == |struck|
    ensures var t := Tick(w, order, struck, dt, now);
      && t.projectiles.Keys <= w.projectiles.Keys
      && forall k :: 0 <= k < |order| && order[k] in w.projectiles && Expired(w.projectiles[order[k]], now) ==> order[k] !in t.projectiles
  {
    var swept := Sweep(w, order, struck, dt, now, 0, {});
    SweepKeeps(w, order, struck, dt, now, 0, {});
    SweepMarksExpired(w, order, struck, dt, now, 0, {});
    ClashMarksGrow(swept.0.projectiles, order, 0, swept.1);
  }

  /**
   * With the snapshot listing each projectile once, as `entries()` of the
   * map does, every projectile left after a tick has moved by one step.
   */
  lemma TickMovesSurvivors(w: World, order: seq<string>, struck: seq<Option<string>>, dt: real, now: int)
    requires |order| == |struck|
    requires forall a, b :: 0 <= a < b < |order| ==> order[a] != order[b]
    requires forall id :: id in w.projectiles ==> id in order
    ensures var t := Tick(w, order, struck, dt, now);
      forall id :: id in t.projectiles ==> id in w.projectiles && t.projectiles[id] == Moved(w.projectiles[id], dt)
  {
    SweepKeeps(w, order, struck, dt, now, 0, {});
    SweepMoves(w, order, struck, dt, now, 0, {});
    assert order[0..] == order;
  }

  // ------------------------------------------------------------ the system

  /** The spell system of a room. */
  class SpellSystem {
    var projectiles: map<string, Proj>
    var players: map<string, Duellist>
    var minds: map<string, Mind>
    var awards: seq<Award>

    constructor(w: World)
      ensures State() == w
    {
      projectiles, players, minds, awards := w.projectiles, w.players, w.minds, w.awards;
    }

    function State(): World
      reads this
    {
      World(projectiles, players, minds, awards)
    }

    /** `handlePlayerHit`, in place. */
    method HandlePlayerHit(attackerId: string, victimId: string)
      modifies this
      ensures State() == Hit(old(State()), attackerId, victimId)
    {
      if attackerId !in players || victimId !in players {
        return;
      }
      ghost var w := State();
      var attacker := players[attackerId];
      players := players[attackerId := attacker.(duelScore := attacker.duelScore + 1)];
      ghost var scored := players;
      if attacker.duelScore + 1 >= WinningScore {
        players := players[attackerId := players[attackerId].(duelScore := 0)];
        players := players[victimId := players[victimId].(duelScore := 0)];
        ghost var reset := scored[attackerId := scored[attackerId].(duelScore := 0)];
        assert players == reset[victimId := reset[victimId].(duelScore := 0)];
        StopAiOf(attackerId);
        StopAiOf(victimId);
        awards := awards + [Award(attackerId, WinPrestige)];
        assert minds == StopAi(StopAi(w.minds, attackerId), victimId);
      } else {
        assert State() == w.(players := scored);
      }
    }

    /** `stopAI(id)`, in place. */
    method StopAiOf(id: string)
      modifies this
      ensures State() == old(State()).(minds := StopAi(old(minds), id))
    {
      if id in minds {
        minds := minds[id := Mind("idle", None)];
      }
    }

    /** The first walk, in place: moves, hits and age marks. */
    method SweepPhase(order: seq<string>, struck: seq<Option<string>>, dt: real, now: int) returns (toRemove: set<string>)
      requires |order| == |struck|
      modifies this
      ensures (State(), toRemove) == Sweep(old(State()), order, struck, dt, now, 0, {})
    {
      toRemove := {};
      var i := 0;
      while i < |order|
        invariant i <= |order|
        invariant Sweep(State(), order, struck, dt, now, i, toRemove) == Sweep(old(State()), order, struck, dt, now, 0, {})
      {
        SweepStep(State(), order, struck, dt, now, i, toRemove);
        var id := order[i];
        if id !in toRemove && id in projectiles {
          toRemove := SweepEntry(id, struck[i], dt, now, toRemove);
        }
        i := i + 1;
      }
    }

    /** The first walk's loop body for the live projectile `id`, with the ray result `hit`. */
    method SweepEntry(id: string, hit: Option<string>, dt: real, now: int, toRemove0: set<string>) returns (toRemove: set<string>)
      requires id in projectiles
      modifies this
      ensures (State(), toRemove) == SweepOne(old(State()), id, dt, now, hit, toRemove0)
    {
      toRemove := toRemove0;
      var proj := projectiles[id];
      var dx := proj.vx * dt / 1000.0;
      var dy := proj.vy * dt / 1000.0;
      assert dx == StepX(proj, dt) && dy == StepY(proj, dt);
      ghost var w := State();
      if dx * dx + dy * dy > 0.0 {
        if hit.Some? && hit.value != proj.ownerId {
          HandlePlayerHit(proj.ownerId, hit.value);
          toRemove := toRemove + {id};
        }
      }
      assert State() == (if Strikes(proj, dt, hit) then Hit(w, proj.ownerId, hit.value) else w);
      projectiles := projectiles[id := proj.(x := proj.x + dx, y := proj.y + dy)];
      if now - proj.creationTime > MaxAgeMs {
        toRemove := toRemove + {id};
      }
    }

    /** The inner loop of the second walk for entry `i`. */
    method ClashRow(order: seq<string>, i: nat, toRemove0: set<string>) returns (toRemove: set<string>)
      requires i < |order|
      ensures toRemove == RowMarks(projectiles, order, i, i + 1, toRemove0)
    {
      toRemove := toRemove0;
      var j := i + 1;
      while j < |order|
        invariant i < j <= |order|
        invariant RowMarks(projectiles, order, i, j, toRemove) == RowMarks(projectiles, order, i, i + 1, toRemove0)
      {
        RowMarksStep(projectiles, order, i, j, toRemove);
        toRemove := ClashPair(order[i], order[j], toRemove);
        j := j + 1;
      }
    }

    /** The inner loop body for the keys `idA` and `idB`: skipped when `idB` is already marked, when either projectile is gone or when they are 30 px or more apart. */
    method ClashPair(idA: string, idB: string, toRemove0: set<string>) returns (toRemove: set<string>)
      ensures toRemove == if idB !in toRemove0 && Near(projectiles, idA, idB)
        then ResolveRps(projectiles[idA], projectiles[idB], idA, idB, toRemove0) else toRemove0
    {
      toRemove := toRemove0;
      if idB in toRemove {
        return;
      }
      if idA in projectiles && idB in projectiles {
        var projA, projB := projectiles[idA], projectiles[idB];
        var distSq := (projA.x - projB.x) * (projA.x - projB.x) + (projA.y - projB.y) * (projA.y - projB.y);
        if distSq < ClashReachSq {
          toRemove := ResolveRps(projA, projB, idA, idB, toRemove);
        }
      }
    }

    /** The second walk over the moved projectiles. */
    method ClashPhase(order: seq<string>, toRemove0: set<string>) returns (toRemove: set<string>)
      ensures toRemove == ClashMarks(projectiles, order, 0, toRemove0)
    {
      toRemove := toRemove0;
      for i := 0 to |order|
        invariant ClashMarks(projectiles, order, i, toRemove) == ClashMarks(projectiles, order, 0, toRemove0)
      {
        if order[i] in toRemove {
          continue;
        }
        toRemove := ClashRow(order, i, toRemove);
      }
    }

    /**
     * `update(dt)` over the snapshot `order` of projectile keys, with the
     * ray results `struck` and the clock reading `now`: the room becomes
     * `Tick` of the old room (see `TickRemovesExpired` and `RowMarksNear`).
     */
    method Update(order: seq<string>, struck: seq<Option<string>>, dt: real, now: int)
      requires |order| == |struck|
      modifies this
      ensures State() == Tick(old(State()), order, struck, dt, now)
    {
      var toRemove := SweepPhase(order, struck, dt, now);
      toRemove := ClashPhase(order, toRemove);
      projectiles := projectiles - toRemove;
    }
  }
}
