/**
 * src/server/systems/CombatSystem.ts: the two collision passes of the
 * server's combat loop. A projectile that comes within reach of a player
 * other than its caster hits the first such player and disappears; two
 * projectiles of different casters that come within 20 px of each other
 * clash, and rock-paper-scissors between their spell types decides which
 * of them disappears (both, on a tie).
 *
 * The physics bodies mirrored by `createProjectile`/`removeProjectile` are
 * not modelled, and the "hit" broadcast is recorded in `hits`.
 */
module Combat {
  import SpellRegistry

  /** The fields of a `Projectile` the collision passes read. */
  datatype Projectile = Projectile(id: string, ownerId: string, spellId: string, x: real, y: real)

  /** A player of the room, as the players' map lists it: its key and position. */
  datatype PlayerAt = PlayerAt(id: string, x: real, y: real)

  /** `HIT_RADIUS + CONFIG.PLAYER_RADIUS` squared, with the player radius 8 of src/shared/Config.ts:7. */
  const HitReachSq: real := (25.0 + 8.0) * (25.0 + 8.0)

  /** The clash distance, 20 px, squared. */
  const ClashReachSq: real := 400.0

  function DistSq(ax: real, ay: real, bx: real, bY: real): real {
    (ax - bx) * (ax - bx) + (ay - bY) * (ay - bY)
  }

  /** `p` hits `pl`: a player other than its caster, within reach. */
  predicate Hits(p: Projectile, pl: PlayerAt) {
    pl.id != p.ownerId && DistSq(p.x, p.y, pl.x, pl.y) < HitReachSq
  }

  /** The first player from `k` on that `p` hits, or -1. */
  function FirstHit(p: Projectile, players: seq<PlayerAt>, k: nat): (i: int)
    requires k <= |players|
    ensures i == -1 || k <= i < |players|
    ensures i == -1 <==> forall m :: k <= m < |players| ==> !Hits(p, players[m])
    ensures i >= 0 ==> Hits(p, players[i]) && forall m :: k <= m < i ==> !Hits(p, players[m])
    decreases |players| - k
  {
    if k == |players| then -1
    else if Hits(p, players[k]) then k
    else FirstHit(p, players, k + 1)
  }

  /** Two projectiles clash: different casters, less than 20 px apart. */
  predicate Clash(a: Projectile, b: Projectile) {
    a.ownerId != b.ownerId && DistSq(a.x, a.y, b.x, b.y) < ClashReachSq
  }

  /** `resolveRPS(getSpellType(a.spellId), getSpellType(b.spellId))`. */
  function Outcome(a: Projectile, b: Projectile): nat {
    SpellRegistry.ResolveRps(SpellRegistry.GetSpellType(a.spellId), SpellRegistry.GetSpellType(b.spellId))
  }

  /** The ids a clash with result `result` removes: the second on 1, the first on 2, both otherwise. */
  function LosersOf(result: nat, a: string, b: string): (r: set<string>)
    ensures r == {b} || r == {a} || r == {a, b}
    ensures r != {} && r <= {a, b}
    ensures result == 0 ==> r == {a, b}
  {
    if result == 1 then {b} else if result == 2 then {a} else {a, b}
  }

  /** The ids the clash of `a` and `b` removes. */
  function Losers(a: Projectile, b: Projectile): set<string> {
    LosersOf(Outcome(a, b), a.id, b.id)
  }

  /** Stronger spells win clashes: rock removes scissors, scissors paper, paper rock, and equal types remove each other. */
  lemma LosersByType(a: Projectile, b: Projectile)
    ensures var ta, tb := SpellRegistry.GetSpellType(a.spellId), SpellRegistry.GetSpellType(b.spellId);
      && (SpellRegistry.Beats(ta, tb) ==> Losers(a, b) == {b.id})
      && (SpellRegistry.Beats(tb, ta) ==> Losers(a, b) == {a.id})
      && (ta == tb ==> Losers(a, b) == {a.id, b.id})
  {
  }

  /** A resolved clash: two positions in the snapshot of projectiles, first before second, and the `resolveRPS` result. */
  datatype Pair = Pair(i: nat, j: nat, result: nat)

  /** Pair `p` is visited before the positions `(i, j)` in the loops' order. */
  predicate Before(p: Pair, i: nat, j: nat) {
    p.i < i || (p.i == i && p.j < j)
  }

  /** Pair `q` comes after pair `p` in the loops' order. */
  predicate Later(p: Pair, q: Pair) {
    Before(p, q.i, q.j)
  }

  /** The pair is in range and its two projectiles clash. */
  predicate Resolves(active: seq<Projectile>, r: Pair) {
    r.i < r.j < |active| && Clash(active[r.i], active[r.j])
  }

  /** The loser ids of a pair of the snapshot (none for a pair out of range). */
  function PairLosers(active: seq<Projectile>, r: Pair): set<string> {
    if r.i < |active| && r.j < |active| then LosersOf(r.result, active[r.i].id, active[r.j].id) else {}
  }

  /** The ids the clashes `resolved` remove. */
  function RemovedBy(active: seq<Projectile>, resolved: seq<Pair>): set<string>
    decreases |resolved|
  {
    if |resolved| == 0 then {}
    else RemovedBy(active, resolved[..|resolved| - 1]) + PairLosers(active, resolved[|resolved| - 1])
  }

  lemma RemovedByAppend(active: seq<Projectile>, resolved: seq<Pair>, r: Pair)
    ensures RemovedBy(active, resolved + [r]) == RemovedBy(active, resolved) + PairLosers(active, r)
  {
    assert (resolved + [r])[..|resolved|] == resolved;
  }

  /** Neither projectile of pair `q` is among the losers of pair `p`. */
  predicate Apart(active: seq<Projectile>, p: Pair, q: Pair) {
    q.i < |active| && q.j < |active|
    && active[q.i].id !in PairLosers(active, p) && active[q.j].id !in PairLosers(active, p)
  }

  /**
   * A record of resolved clashes as the loops build it: each clash comes
   * after the ones before it, its two projectiles clash, and neither was
   * removed by an earlier clash.
   */
  predicate Consistent(active: seq<Projectile>, resolved: seq<Pair>)
    decreases |resolved|
  {
    |resolved| == 0 ||
    (var prior, r := resolved[..|resolved| - 1], resolved[|resolved| - 1];
     && Consistent(active, prior)
     && Resolves(active, r)
     && (forall k :: 0 <= k < |prior| ==> Later(prior[k], r))
     && active[r.i].id !in RemovedBy(active, prior) && active[r.j].id !in RemovedBy(active, prior))
  }

  /** A further clash, later than all before and between two projectiles not yet removed, extends a consistent record. */
  lemma Extend(active: seq<Projectile>, resolved: seq<Pair>, r: Pair)
    requires Consistent(active, resolved)
    requires Resolves(active, r)
    requires forall k :: 0 <= k < |resolved| ==> Later(resolved[k], r)
    requires active[r.i].id !in RemovedBy(active, resolved) && active[r.j].id !in RemovedBy(active, resolved)
    ensures Consistent(active, resolved + [r])
  {
    assert (resolved + [r])[..|resolved|] == resolved;
  }

  /** Each clash's losers are among the removed. */
  lemma {:induction false} RemovedByCovers(active: seq<Projectile>, resolved: seq<Pair>)
    ensures forall k :: 0 <= k < |resolved| ==> PairLosers(active, resolved[k]) <= RemovedBy(active, resolved)
    decreases |resolved|
  {
    if |resolved| > 0 {
      var n := |resolved| - 1;
      var prior := resolved[..n];
      RemovedByCovers(active, prior);
      assert RemovedBy(active, resolved) == RemovedBy(active, prior) + PairLosers(active, resolved[n]);
      forall k | 0 <= k < n
        ensures PairLosers(active, resolved[k]) <= RemovedBy(active, resolved)
      {
        assert resolved[k] == prior[k];
      }
    }
  }

  /** In a consistent record every pair clashes and the pairs come in the loops' order. */
  lemma {:induction false} ConsistentOrdered(active: seq<Projectile>, resolved: seq<Pair>)
    requires Consistent(active, resolved)
    ensures forall k :: 0 <= k < |resolved| ==> Resolves(active, resolved[k])
    ensures forall k, l :: 0 <= k < l < |resolved| ==> Later(resolved[k], resolved[l])
    decreases |resolved|
  {
    if |resolved| > 0 {
      var prior := resolved[..|resolved| - 1];
      ConsistentOrdered(active, prior);
      assert forall k :: 0 <= k < |prior| ==> resolved[k] == prior[k];
    }
  }

  /** In a consistent record no projectile removed by one clash takes part in a later one. */
  lemma {:induction false} ConsistentApart(active: seq<Projectile>, resolved: seq<Pair>)
    requires Consistent(active, resolved)
    ensures forall k, l :: 0 <= k < l < |resolved| ==> Apart(active, resolved[k], resolved[l])
    decreases |resolved|
  {
    if |resolved| > 0 {
      var n := |resolved| - 1;
      var prior := resolved[..n];
      ConsistentApart(active, prior);
      RemovedByCovers(active, prior);
      assert forall k :: 0 <= k < n ==> resolved[k] == prior[k];
      forall k, l | 0 <= k < l < |resolved|
        ensures Apart(active, resolved[k], resolved[l])
      {
        if l == n {
          assert PairLosers(active, prior[k]) <= RemovedBy(active, prior);
        } else {
          assert Apart(active, prior[k], prior[l]);
        }
      }
    }
  }

  /**
   * The body of the inner loop for the pair `(i, j)`: it is resolved
   * unless either projectile was already removed, they share a caster or
   * they are 20 px or more apart.
   */
  function Visit(active: seq<Projectile>, types: seq<SpellRegistry.SpellType>, i: nat, j: nat, resolved: seq<Pair>): seq<Pair>
    requires |types| == |active|
    requires i < j < |active|
  {
    var handled := RemovedBy(active, resolved);
    if active[i].id !in handled && active[j].id !in handled && Clash(active[i], active[j])
    then resolved + [Pair(i, j, SpellRegistry.ResolveRps(types[i], types[j]))]
    else resolved
  }

  /** The inner loop for row `i`, from `j` on. */
  function Row(active: seq<Projectile>, types: seq<SpellRegistry.SpellType>, i: nat, j: nat, resolved: seq<Pair>): seq<Pair>
    requires |types| == |active|
    requires i < j <= |active|
    decreases |active| - j
  {
    if j == |active| then resolved else Row(active, types, i, j + 1, Visit(active, types, i, j, resolved))
  }

  /** The outer loop, from row `i` on. */
  function Rows(active: seq<Projectile>, types: seq<SpellRegistry.SpellType>, i: nat, resolved: seq<Pair>): seq<Pair>
    requires |types| == |active|
    requires i <= |active|
    decreases |active| - i
  {
    if i == |active| then resolved else Rows(active, types, i + 1, Row(active, types, i, i + 1, resolved))
  }

  /**
   * The spell types `getSpellType` reads for the snapshot's projectiles.
   * The one-pass functions below take them as a parameter, so that their
   * proofs do not look into the spell registry.
   */
  function Types(active: seq<Projectile>): (r: seq<SpellRegistry.SpellType>)
    ensures |r| == |active|
  {
    seq(|active|, k requires 0 <= k < |active| => SpellRegistry.GetSpellType(active[k].spellId))
  }

  /** Each type is the one of its projectile, so the result stored for a pair is its `Outcome`. */
  lemma TypesOutcome(active: seq<Projectile>, i: nat, j: nat)
    requires i < |active| && j < |active|
    ensures SpellRegistry.ResolveRps(Types(active)[i], Types(active)[j]) == Outcome(active[i], active[j])
  {
  }

  /** The clashes one pass of `checkProjectileClash` resolves over the snapshot `active`. */
  function Clashes(active: seq<Projectile>): seq<Pair> {
    Rows(active, Types(active), 0, [])
  }

  /** Every clashing pair of rows before `i` lost a projectile to the clashes `resolved`. */
  predicate CoveredBefore(active: seq<Projectile>, i: nat, resolved: seq<Pair>) {
    forall ii, j :: 0 <= ii < i && ii < j < |active| && Clash(active[ii], active[j]) ==>
      active[ii].id in RemovedBy(active, resolved) || active[j].id in RemovedBy(active, resolved)
  }

  /** One visit adds at most its own pair, so it only adds removals, and it settles its pair if that clashes. */
  lemma VisitGrows(active: seq<Projectile>, types: seq<SpellRegistry.SpellType>, i: nat, j: nat, resolved: seq<Pair>)
    requires |types| == |active|
    requires i < j < |active|
    ensures var t := Visit(active, types, i, j, resolved);
      && RemovedBy(active, resolved) <= RemovedBy(active, t)
      && (Clash(active[i], active[j]) ==> active[i].id in RemovedBy(active, t) || active[j].id in RemovedBy(active, t))
  {
    var t := Visit(active, types, i, j, resolved);
    if t != resolved {
      RemovedByAppend(active, resolved, Pair(i, j, SpellRegistry.ResolveRps(types[i], types[j])));
    }
  }

  /** One visit keeps the record consistent, adding only a pair visited before `(i, j + 1)`. */
  lemma VisitKeeps(active: seq<Projectile>, types: seq<SpellRegistry.SpellType>, i: nat, j: nat, resolved: seq<Pair>)
    requires |types| == |active|
    requires i < j < |active|
    requires Consistent(active, resolved)
    requires forall k :: 0 <= k < |resolved| ==> Before(resolved[k], i, j)
    ensures var t := Visit(active, types, i, j, resolved);
      && Consistent(active, t)
      && (forall k :: 0 <= k < |t| ==> Before(t[k], i, j + 1))
  {
    var t := Visit(active, types, i, j, resolved);
    if t != resolved {
      var r := Pair(i, j, SpellRegistry.ResolveRps(types[i], types[j]));
      Extend(active, resolved, r);
      assert forall k :: 0 <= k < |resolved| ==> t[k] == resolved[k];
    }
  }

  /** A whole row only adds removals. */
  lemma {:induction false} RowMonotone(active: seq<Projectile>, types: seq<SpellRegistry.SpellType>, i: nat, j: nat, resolved: seq<Pair>)
    requires |types| == |active|
    requires i < j <= |active|
    ensures RemovedBy(active, resolved) <= RemovedBy(active, Row(active, types, i, j, resolved))
    decreases |active| - j
  {
    if j < |active| {
      VisitGrows(active, types, i, j, resolved);
      RowMonotone(active, types, i, j + 1, Visit(active, types, i, j, resolved));
    }
  }

  /** A whole row keeps the record consistent and adds only pairs of row `i`. */
  lemma {:induction false} RowGrows(active: seq<Projectile>, types: seq<SpellRegistry.SpellType>, i: nat, j: nat, resolved: seq<Pair>)
    requires |types| == |active|
    requires i < j <= |active|
    requires Consistent(active, resolved)
    requires forall k :: 0 <= k < |resolved| ==> Before(resolved[k], i, j)
    ensures var t := Row(active, types, i, j, resolved);
      && Consistent(active, t)
      && (forall k :: 0 <= k < |t| ==> t[k].i <= i)
    decreases |active| - j
  {
    if j < |active| {
      var v := Visit(active, types, i, j, resolved);
      VisitKeeps(active, types, i, j, resolved);
      RowGrows(active, types, i, j + 1, v);
      RowStep(active, types, i, j, resolved);
    }
  }

  /** The row from `j` is the row from `j + 1` after visiting `(i, j)`. */
  lemma RowStep(active: seq<Projectile>, types: seq<SpellRegistry.SpellType>, i: nat, j: nat, resolved: seq<Pair>)
    requires |types| == |active|
    requires i < j < |active|
    ensures Row(active, types, i, j, resolved) == Row(active, types, i, j + 1, Visit(active, types, i, j, resolved))
  {
  }

  /** The inner loop for row `i` up to `j`, as the loop state builds it. */
  function RowUpTo(active: seq<Projectile>, types: seq<SpellRegistry.SpellType>, i: nat, j: nat, resolved: seq<Pair>): seq<Pair>
    requires |types| == |active|
    requires i < j <= |active|
    decreases j
  {
    if j == i + 1 then resolved else Visit(active, types, i, j - 1, RowUpTo(active, types, i, j - 1, resolved))
  }

  /** Finishing the row from the state after visiting up to `j` gives the whole row. */
  lemma {:induction false} RowUpToRest(active: seq<Projectile>, types: seq<SpellRegistry.SpellType>, i: nat, j: nat, resolved: seq<Pair>)
    requires |types| == |active|
    requires i < j <= |active|
    ensures Row(active, types, i, j, RowUpTo(active, types, i, j, resolved)) == Row(active, types, i, i + 1, resolved)
    decreases j
  {
    if j == i + 1 {
      assert RowUpTo(active, types, i, j, resolved) == resolved;
    } else {
      var prev := RowUpTo(active, types, i, j - 1, resolved);
      assert RowUpTo(active, types, i, j, resolved) == Visit(active, types, i, j - 1, prev);
      RowStep(active, types, i, j - 1, prev);
      RowUpToRest(active, types, i, j - 1, resolved);
    }
  }

  /** A whole row settles every clash of row `i` from `j` on. */
  lemma {:induction false} RowCovers(active: seq<Projectile>, types: seq<SpellRegistry.SpellType>, i: nat, j: nat, resolved: seq<Pair>)
    requires |types| == |active|
    requires i < j <= |active|
    ensures var t := Row(active, types, i, j, resolved);
      forall jj :: j <= jj < |active| && Clash(active[i], active[jj]) ==>
        active[i].id in RemovedBy(active, t) || active[jj].id in RemovedBy(active, t)
    decreases |active| - j
  {
    if j < |active| {
      var v := Visit(active, types, i, j, resolved);
      var t := Row(active, types, i, j, resolved);
      assert t == Row(active, types, i, j + 1, v);
      VisitGrows(active, types, i, j, resolved);
      RowMonotone(active, types, i, j + 1, v);
      RowCovers(active, types, i, j + 1, v);
      var gone, later := RemovedBy(active, v), RemovedBy(active, t);
      forall jj | j <= jj < |active| && Clash(active[i], active[jj])
        ensures active[i].id in later || active[jj].id in later
      {
        if jj == j {
          assert active[i].id in gone || active[jj].id in gone;
        }
      }
    }
  }

  /** Settling row `i` while only adding removals extends the rows settled before `i` by one. */
  lemma CoveredNext(active: seq<Projectile>, i: nat, resolved: seq<Pair>, t: seq<Pair>)
    requires i < |active|
    requires CoveredBefore(active, i, resolved)
    requires RemovedBy(active, resolved) <= RemovedBy(active, t)
    requires forall jj :: i + 1 <= jj < |active| && Clash(active[i], active[jj]) ==>
      active[i].id in RemovedBy(active, t) || active[jj].id in RemovedBy(active, t)
    ensures CoveredBefore(active, i + 1, t)
  {
    var gone, later := RemovedBy(active, resolved), RemovedBy(active, t);
    forall ii, j | 0 <= ii < i + 1 && ii < j < |active| && Clash(active[ii], active[j])
      ensures active[ii].id in later || active[j].id in later
    {
      if ii < i {
        assert active[ii].id in gone || active[j].id in gone;
      }
    }
  }

  /** Pairs of rows before `i` are visited before `(i, j)` for any `j`. */
  lemma RowsBelowBefore(resolved: seq<Pair>, i: nat, j: nat)
    requires forall k :: 0 <= k < |resolved| ==> resolved[k].i < i
    ensures forall k :: 0 <= k < |resolved| ==> Before(resolved[k], i, j)
  {
  }

  /** The remaining rows keep the record consistent. */
  lemma {:induction false} RowsConsistent(active: seq<Projectile>, types: seq<SpellRegistry.SpellType>, i: nat, resolved: seq<Pair>)
    requires |types| == |active|
    requires i <= |active|
    requires Consistent(active, resolved)
    requires forall k :: 0 <= k < |resolved| ==> resolved[k].i < i
    ensures Consistent(active, Rows(active, types, i, resolved))
    decreases |active| - i
  {
    if i == |active| {
      assert Rows(active, types, i, resolved) == resolved;
    } else {
      var t := Row(active, types, i, i + 1, resolved);
      assert Rows(active, types, i, resolved) == Rows(active, types, i + 1, t);
      RowKeeps(active, types, i, resolved);
      RowsConsistent(active, types, i + 1, t);
    }
  }

  /** Row `i` keeps the record consistent and adds only pairs of row `i`. */
  lemma RowKeeps(active: seq<Projectile>, types: seq<SpellRegistry.SpellType>, i: nat, resolved: seq<Pair>)
    requires |types| == |active|
    requires i < |active|
    requires Consistent(active, resolved)
    requires forall k :: 0 <= k < |resolved| ==> resolved[k].i < i
    ensures var t := Row(active, types, i, i + 1, resolved);
      Consistent(active, t) && forall k :: 0 <= k < |t| ==> t[k].i < i + 1
  {
    RowsBelowBefore(resolved, i, i + 1);
    RowGrows(active, types, i, i + 1, resolved);
  }

  /** The remaining rows settle every clash of the snapshot. */
  lemma {:induction false} RowsCover(active: seq<Projectile>, types: seq<SpellRegistry.SpellType>, i: nat, resolved: seq<Pair>)
    requires |types| == |active|
    requires i <= |active|
    requires CoveredBefore(active, i, resolved)
    ensures CoveredBefore(active, |active|, Rows(active, types, i, resolved))
    decreases |active| - i
  {
    if i == |active| {
      assert Rows(active, types, i, resolved) == resolved;
    } else {
      var t := Row(active, types, i, i + 1, resolved);
      RowSettles(active, types, i, resolved);
      RowsCover(active, types, i + 1, t);
      CoveredSame(active, |active|, Rows(active, types, i + 1, t), Rows(active, types, i, resolved));
    }
  }

  /** Two records that remove the same projectiles settle the same clashes. */
  lemma CoveredSame(active: seq<Projectile>, n: nat, a: seq<Pair>, b: seq<Pair>)
    requires RemovedBy(active, a) == RemovedBy(active, b)
    requires CoveredBefore(active, n, a)
    ensures CoveredBefore(active, n, b)
  {
  }

  /** Row `i` extends the settled rows by one. */
  lemma RowSettles(active: seq<Projectile>, types: seq<SpellRegistry.SpellType>, i: nat, resolved: seq<Pair>)
    requires |types| == |active|
    requires i < |active|
    requires CoveredBefore(active, i, resolved)
    ensures CoveredBefore(active, i + 1, Row(active, types, i, i + 1, resolved))
  {
    RowMonotone(active, types, i, i + 1, resolved);
    RowCovers(active, types, i, i + 1, resolved);
    CoveredNext(active, i, resolved, Row(active, types, i, i + 1, resolved));
  }

  /** Every pair records the rock-paper-scissors result of its two projectiles. */
  predicate Scored(active: seq<Projectile>, types: seq<SpellRegistry.SpellType>, resolved: seq<Pair>)
    requires |types| == |active|
  {
    forall k :: 0 <= k < |resolved| ==>
      resolved[k].i < |active| && resolved[k].j < |active|
      && resolved[k].result == SpellRegistry.ResolveRps(types[resolved[k].i], types[resolved[k].j])
  }

  /** A whole row records each clash with its result. */
  lemma {:induction false} RowScored(active: seq<Projectile>, types: seq<SpellRegistry.SpellType>, i: nat, j: nat, resolved: seq<Pair>)
    requires |types| == |active|
    requires i < j <= |active|
    requires Scored(active, types, resolved)
    ensures Scored(active, types, Row(active, types, i, j, resolved))
    decreases |active| - j
  {
    if j < |active| {
      var v := Visit(active, types, i, j, resolved);
      assert Row(active, types, i, j, resolved) == Row(active, types, i, j + 1, v);
      assert Scored(active, types, v) by {
        if v != resolved {
          assert forall k :: 0 <= k < |resolved| ==> v[k] == resolved[k];
        }
      }
      RowScored(active, types, i, j + 1, v);
    }
  }

  /** The remaining rows record each clash with its result. */
  lemma {:induction false} RowsScored(active: seq<Projectile>, types: seq<SpellRegistry.SpellType>, i: nat, resolved: seq<Pair>)
    requires |types| == |active|
    requires i <= |active|
    requires Scored(active, types, resolved)
    ensures Scored(active, types, Rows(active, types, i, resolved))
    decreases |active| - i
  {
    if i == |active| {
      assert Rows(active, types, i, resolved) == resolved;
    } else {
      var t := Row(active, types, i, i + 1, resolved);
      assert Rows(active, types, i, resolved) == Rows(active, types, i + 1, t);
      RowScored(active, types, i, i + 1, resolved);
      RowsScored(active, types, i + 1, t);
    }
  }

  /**
   * What one pass resolves: every resolved pair clashes, the pairs come in
   * the loops' order, no projectile removed by a clash takes part in a later
   * one, and every clashing pair of the snapshot lost at least one of its two.
   */
  lemma ClashesSpec(active: seq<Projectile>)
    ensures var r := Clashes(active);
      && (forall k :: 0 <= k < |r| ==> Resolves(active, r[k]))
      && (forall k :: 0 <= k < |r| ==> PairLosers(active, r[k]) == Losers(active[r[k].i], active[r[k].j]))
      && (forall k, l :: 0 <= k < l < |r| ==> Later(r[k], r[l]))
      && (forall k, l :: 0 <= k < l < |r| ==> Apart(active, r[k], r[l]))
      && (forall i, j :: 0 <= i < j < |active| && Clash(active[i], active[j]) ==>
            active[i].id in RemovedBy(active, r) || active[j].id in RemovedBy(active, r))
  {
    var types, r := Types(active), Clashes(active);
    RowsConsistent(active, types, 0, []);
    RowsCover(active, types, 0, []);
    RowsScored(active, types, 0, []);
    ConsistentOrdered(active, r);
    ConsistentApart(active, r);
    forall k | 0 <= k < |r|
      ensures PairLosers(active, r[k]) == Losers(active[r[k].i], active[r[k].j])
    {
      TypesOutcome(active, r[k].i, r[k].j);
    }
  }

  /** The combat state of a room. */
  class CombatSystem {
    var projectiles: map<string, Projectile>
    var players: seq<PlayerAt>
    var hits: seq<string>

    constructor(projectiles: map<string, Projectile>, players: seq<PlayerAt>)
      ensures this.projectiles == projectiles && this.players == players && hits == []
    {
      this.projectiles, this.players := projectiles, players;
      hits := [];
    }

    /**
     * `checkPlayerCollision(p, projId)`: the players are tried in order; at
     * the first one `p` hits, the hit is broadcast and the projectile is
     * deleted, and no further player is tried. So a projectile hits at most
     * one player per tick, and never its caster.
     */
    method CheckPlayerCollision(p: Projectile, projId: string) returns (hit: bool)
      modifies this
      ensures players == old(players)
      ensures hit <==> exists k :: 0 <= k < |players| && Hits(p, players[k])
      ensures !hit ==> projectiles == old(projectiles) && hits == old(hits)
      ensures hit ==> var k := FirstHit(p, players, 0);
        && projectiles == old(projectiles) - {projId}
        && hits == old(hits) + [players[k].id]
        && players[k].id != p.ownerId
    {
      hit := false;
      var k := 0;
      while k < |players|
        invariant 0 <= k <= |players| && players == old(players)
        invariant !hit ==> FirstHit(p, players, 0) == FirstHit(p, players, k) && projectiles == old(projectiles) && hits == old(hits)
        invariant hit ==> var f := FirstHit(p, players, 0);
          0 <= f < k && projectiles == old(projectiles) - {projId} && hits == old(hits) + [players[f].id]
      {
        if !hit {
          var player := players[k];
          if Hits(p, player) {
            hits := hits + [player.id];
            projectiles := projectiles - {projId};
            hit := true;
          }
        }
        k := k + 1;
      }
      if !hit {
        assert FirstHit(p, players, |players|) == -1;
      }
    }

    /**
     * One row of `checkProjectileClash`'s nested loop: projectile `i`
     * against every later one.
     */
    method ClashRow(active: seq<Projectile>, i: nat, handled0: set<string>, resolved0: seq<Pair>, ghost start: map<string, Projectile>)
      returns (handled: set<string>, resolved: seq<Pair>)
      requires i < |active|
      requires handled0 == RemovedBy(active, resolved0)
      requires projectiles == start - handled0
      modifies this
      ensures resolved == Row(active, Types(active), i, i + 1, resolved0)
      ensures handled == RemovedBy(active, resolved)
      ensures projectiles == start - handled
      ensures players == old(players) && hits == old(hits)
    {
      handled, resolved := handled0, resolved0;
      var j := i + 1;
      while j < |active|
        invariant i < j <= |active|
        invariant resolved == RowUpTo(active, Types(active), i, j, resolved0)
        invariant handled == RemovedBy(active, resolved)
        invariant projectiles == start - handled
        invariant players == old(players) && hits == old(hits)
      {
        handled, resolved := ClashPair(active, i, j, handled, resolved, start);
        j := j + 1;
      }
      RowUpToRest(active, Types(active), i, j, resolved0);
    }

    /**
     * The inner loop body for the pair `(i, j)`: skipped when either
     * projectile was already removed, when they share a caster or when they
     * are 20 px or more apart; otherwise the clash is resolved and its
     * losers deleted.
     */
    method ClashPair(active: seq<Projectile>, i: nat, j: nat, handled0: set<string>, resolved0: seq<Pair>, ghost start: map<string, Projectile>)
      returns (handled: set<string>, resolved: seq<Pair>)
      requires i < j < |active|
      requires handled0 == RemovedBy(active, resolved0)
      requires projectiles == start - handled0
      modifies this
      ensures resolved == Visit(active, Types(active), i, j, resolved0)
      ensures handled == RemovedBy(active, resolved)
      ensures projectiles == start - handled
      ensures players == old(players) && hits == old(hits)
    {
      handled, resolved := handled0, resolved0;
      var p1 := active[i];
      var p2 := active[j];
      if p1.id in handled || p2.id in handled {
        assert Visit(active, Types(active), i, j, resolved0) == resolved0;
        return;
      }
      if p1.ownerId == p2.ownerId {
        assert !Clash(p1, p2);
        return;
      }
      var dx := p1.x - p2.x;
      var dy := p1.y - p2.y;
      assert DistSq(p1.x, p1.y, p2.x, p2.y) == dx * dx + dy * dy;
      if dx * dx + dy * dy < ClashReachSq {
        var result := Outcome(p1, p2);
        var losers := ResolveClash(p1, p2, result);
        RemovedByAppend(active, resolved, Pair(i, j, result));
        resolved := resolved + [Pair(i, j, result)];
        handled := handled + losers;
      }
    }

    /** The clash of `p1` and `p2` with rock-paper-scissors result `result`: the losers are deleted and returned. */
    method ResolveClash(p1: Projectile, p2: Projectile, result: nat) returns (losers: set<string>)
      modifies this
      ensures losers == LosersOf(result, p1.id, p2.id)
      ensures projectiles == old(projectiles) - losers
      ensures players == old(players) && hits == old(hits)
    {
      if result == 1 {
        projectiles := projectiles - {p2.id};
        losers := {p2.id};
      } else if result == 2 {
        projectiles := projectiles - {p1.id};
        losers := {p1.id};
      } else {
        projectiles := projectiles - {p1.id} - {p2.id};
        losers := {p1.id, p2.id};
      }
    }

    /**
     * `checkProjectileClash` over `active`, the projectiles at the start of
     * the pass in map order: it resolves `Clashes(active)` and deletes
     * exactly their losers, so (by `ClashesSpec`) each resolved pair
     * clashes, no projectile removed by one takes part in a later one, and
     * every clashing pair of the snapshot lost at least one of its two.
     */
    method CheckProjectileClash(active: seq<Projectile>) returns (resolved: seq<Pair>)
      modifies this
      ensures resolved == Clashes(active)
      ensures projectiles == old(projectiles) - RemovedBy(active, resolved)
      ensures forall i, j :: 0 <= i < j < |active| && Clash(active[i], active[j]) ==>
        active[i].id !in projectiles || active[j].id !in projectiles
      ensures players == old(players) && hits == old(hits)
    {
      var handled: set<string> := {};
      resolved := [];
      for i := 0 to |active|
        invariant Rows(active, Types(active), i, resolved) == Clashes(active)
        invariant handled == RemovedBy(active, resolved)
        invariant projectiles == old(projectiles) - handled
        invariant players == old(players) && hits == old(hits)
      {
        handled, resolved := ClashRow(active, i, handled, resolved, old(projectiles));
      }
      ClashesSpec(active);
    }
  }
}
