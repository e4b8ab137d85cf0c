/**
 * src/server/systems/PrestigeSystem.ts: house points. Awarding is switched
 * off in this version; removing points obeys the anti-sabotage rule, under
 * which a student never loses more than their own personal balance, and the
 * same amount leaves the student's house total.
 */
module Prestige {
  import Strings

  /** The part of a player's state the prestige rules read and write. */
  datatype PlayerState = PlayerState(username: string, skin: string, personalPrestige: int)

  /** The three house totals of the room. */
  datatype Totals = Totals(ignis: int, axiom: int, vesper: int)

  /** The room state the rules touch: players and, per entity, its `ai.house` if any. */
  datatype RoomState = RoomState(players: map<string, PlayerState>, houses: map<string, string>, totals: Totals)

  /** `getHouseBySkin`: a skin saying "red" is Ignis, else one saying "blue" Axiom, else Vesper. */
  function HouseBySkin(skin: string): (h: string)
    ensures h in {"ignis", "axiom", "vesper"}
    ensures h == "ignis" <==> Strings.Contains(skin, "red")
    ensures h == "axiom" <==> !Strings.Contains(skin, "red") && Strings.Contains(skin, "blue")
  {
    if Strings.Contains(skin, "red") then "ignis"
    else if Strings.Contains(skin, "blue") then "axiom"
    else "vesper"
  }

  /** `entity.ai?.house || getHouseBySkin(skin)`: the entity's own house when it has a non-empty one. */
  function HouseOf(aiHouse: string, skin: string): (h: string)
    ensures h != ""
    ensures aiHouse != "" ==> h == aiHouse
  {
    if aiHouse != "" then aiHouse else HouseBySkin(skin)
  }

  /** The house total of `house`, or 0 for a name that is none of the three. */
  function TotalOf(t: Totals, house: string): int {
    if house == "ignis" then t.ignis
    else if house == "axiom" then t.axiom
    else if house == "vesper" then t.vesper
    else 0
  }

  function Sum(t: Totals): int {
    t.ignis + t.axiom + t.vesper
  }

  /** `delta` added to the total of `house`; an unknown house changes no total. */
  function Credit(t: Totals, house: string, delta: int): (r: Totals)
    ensures Sum(r) == Sum(t) + (if house in {"ignis", "axiom", "vesper"} then delta else 0)
    ensures TotalOf(r, house) == TotalOf(t, house) + (if house in {"ignis", "axiom", "vesper"} then delta else 0)
    ensures forall other :: other != house ==> TotalOf(r, other) == TotalOf(t, other)
  {
    if house == "ignis" then t.(ignis := t.ignis + delta)
    else if house == "axiom" then t.(axiom := t.axiom + delta)
    else if house == "vesper" then t.(vesper := t.vesper + delta)
    else t
  }

  /** `Math.min(amount, personalPrestige)`: what the anti-sabotage rule lets a removal take. */
  function Reduction(amount: int, balance: int): (r: int)
    ensures r <= amount && r <= balance
    ensures r == amount || r == balance
  {
    if amount <= balance then amount else balance
  }

  /**
   * `removePrestige` on the room state: with the player's state and entity
   * both present and a positive reduction, the reduction leaves the
   * personal balance and the house total; otherwise nothing changes.
   */
  function Remove(s: RoomState, sessionId: string, amount: int): RoomState {
    if sessionId !in s.players || sessionId !in s.houses then s
    else
      var p := s.players[sessionId];
      var house := HouseOf(s.houses[sessionId], p.skin);
      var r := Reduction(amount, p.personalPrestige);
      if r <= 0 then s
      else s.(players := s.players[sessionId := p.(personalPrestige := p.personalPrestige - r)],
              totals := Credit(s.totals, house, -r))
  }

  /**
   * What a removal does: nothing for an absent player or entity or a
   * non-positive reduction; otherwise the balance falls by exactly
   * min(amount, balance), the house total by the same, the other houses
   * and players keep theirs, and a non-negative balance stays non-negative.
   */
  lemma RemoveSpec(s: RoomState, sessionId: string, amount: int)
    ensures var t := Remove(s, sessionId, amount);
      && t.houses == s.houses && t.players.Keys == s.players.Keys
      && (forall id :: id in s.players && id != sessionId ==> t.players[id] == s.players[id])
      && (sessionId !in s.players || sessionId !in s.houses ==> t == s)
      && (sessionId in s.players && sessionId in s.houses ==>
            var p := s.players[sessionId];
            var house := HouseOf(s.houses[sessionId], p.skin);
            var r := if amount <= p.personalPrestige then amount else p.personalPrestige;
            && (r <= 0 ==> t == s)
            && (r > 0 ==> t.players[sessionId] == p.(personalPrestige := p.personalPrestige - r)
                          && 0 < r <= amount
                          && (p.personalPrestige >= 0 ==> t.players[sessionId].personalPrestige >= 0)
                          && (house in {"ignis", "axiom", "vesper"} ==> TotalOf(t.totals, house) == TotalOf(s.totals, house) - r)
                          && (forall other :: other != house ==> TotalOf(t.totals, other) == TotalOf(s.totals, other))))
  {
  }

  /** Nobody's balance goes below zero through removals: a room of non-negative balances stays one. */
  lemma RemoveKeepsBalancesNonNegative(s: RoomState, sessionId: string, amount: int)
    requires forall id :: id in s.players ==> s.players[id].personalPrestige >= 0
    ensures var t := Remove(s, sessionId, amount);
      forall id :: id in t.players ==> t.players[id].personalPrestige >= 0
  {
  }

  /** Points leave the houses exactly as they leave the student, for an entity of one of the three houses. */
  lemma RemoveMovesSum(s: RoomState, sessionId: string, amount: int)
    requires sessionId in s.players && sessionId in s.houses
    requires HouseOf(s.houses[sessionId], s.players[sessionId].skin) in {"ignis", "axiom", "vesper"}
    ensures var t := Remove(s, sessionId, amount);
      Sum(t.totals) - Sum(s.totals) == t.players[sessionId].personalPrestige - s.players[sessionId].personalPrestige
  {
  }

  /**
   * The steps of `removePrestige`, shared by both builds: nothing for an
   * absent player or entity or a reduction of at most 0; otherwise the
   * balance and the house total lose the reduction.
   */
  method RemoveSteps(players0: map<string, PlayerState>, houses: map<string, string>, totals0: Totals, sessionId: string, amount: int)
    returns (players: map<string, PlayerState>, totals: Totals)
    ensures RoomState(players, houses, totals) == Remove(RoomState(players0, houses, totals0), sessionId, amount)
  {
    players, totals := players0, totals0;
    if sessionId !in players || sessionId !in houses {
      return;
    }
    var playerState := players[sessionId];
    var house := HouseOf(houses[sessionId], playerState.skin);
    var actualReduction := Reduction(amount, playerState.personalPrestige);
    if actualReduction <= 0 {
      return;
    }
    players := players[sessionId := playerState.(personalPrestige := playerState.personalPrestige - actualReduction)];
    if house == "ignis" {
      totals := totals.(ignis := totals.ignis - actualReduction);
    } else if house == "axiom" {
      totals := totals.(axiom := totals.axiom - actualReduction);
    } else if house == "vesper" {
      totals := totals.(vesper := totals.vesper - actualReduction);
    }
  }

  /** The prestige rules of a room. */
  class PrestigeSystem {
    var players: map<string, PlayerState>
    var houses: map<string, string>
    var totals: Totals

    constructor(players: map<string, PlayerState>, houses: map<string, string>, totals: Totals)
      ensures State() == RoomState(players, houses, totals)
    {
      this.players, this.houses, this.totals := players, houses, totals;
    }

    function State(): RoomState
      reads this
    {
      RoomState(players, houses, totals)
    }

    /** `addPrestige`: paused, it awards nothing. */
    method AddPrestige(sessionId: string, amount: int)
      ensures State() == old(State())
    {
    }

    /** `removePrestige`, in place. */
    method RemovePrestige(sessionId: string, amount: int)
      modifies this
      ensures State() == Remove(old(State()), sessionId, amount)
    {
      players, totals := RemoveSteps(players, houses, totals, sessionId, amount);
    }
  }
}
