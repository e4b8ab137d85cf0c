/**
 * dist-server/server/systems/PrestigeSystem.js: the build in which awarding
 * is switched on. An award raises the student's balance and their house's
 * total by the amount; removal is the anti-sabotage rule of the other build.
 */
module PrestigeDist {
  import opened Prestige

  /**
   * `addPrestige` on the room state: with the player's state and entity
   * both present, the amount goes to the personal balance and the house.
   */
  function Add(s: RoomState, sessionId: string, amount: int): RoomState {
    if sessionId !in s.players || sessionId !in s.houses then s
    else
      var p := s.players[sessionId];
      var house := HouseOf(s.houses[sessionId], p.skin);
      s.(players := s.players[sessionId := p.(personalPrestige := p.personalPrestige + amount)],
         totals := Credit(s.totals, house, amount))
  }

  /**
   * What an award does: nothing for an absent player or entity; otherwise
   * the balance and exactly one house total, the house's, gain the amount.
   */
  lemma AddSpec(s: RoomState, sessionId: string, amount: int)
    ensures var t := Add(s, sessionId, amount);
      && t.houses == s.houses && t.players.Keys == s.players.Keys
      && (forall id :: id in s.players && id != sessionId ==> t.players[id] == s.players[id])
      && (sessionId !in s.players || sessionId !in s.houses ==> t == s)
      && (sessionId in s.players && sessionId in s.houses ==>
            var p := s.players[sessionId];
            var house := HouseOf(s.houses[sessionId], p.skin);
            && t.players[sessionId] == p.(personalPrestige := p.personalPrestige + amount)
            && (house in {"ignis", "axiom", "vesper"} ==> TotalOf(t.totals, house) == TotalOf(s.totals, house) + amount)
            && (forall other :: other != house ==> TotalOf(t.totals, other) == TotalOf(s.totals, other)))
  {
  }

  /** Points reach the houses exactly as they reach the student, for an entity of one of the three houses. */
  lemma AddMovesSum(s: RoomState, sessionId: string, amount: int)
    requires sessionId in s.players && sessionId in s.houses
    requires HouseOf(s.houses[sessionId], s.players[sessionId].skin) in {"ignis", "axiom", "vesper"}
    ensures var t := Add(s, sessionId, amount);
      Sum(t.totals) - Sum(s.totals) == t.players[sessionId].personalPrestige - s.players[sessionId].personalPrestige
  {
  }

  /** Removing what was just awarded restores the room, for a non-negative award to a non-negative balance. */
  lemma AddThenRemove(s: RoomState, sessionId: string, amount: int)
    requires amount >= 0
    requires sessionId in s.players ==> s.players[sessionId].personalPrestige >= 0
    ensures Remove(Add(s, sessionId, amount), sessionId, amount) == s
  {
    if sessionId in s.players && sessionId in s.houses {
      var p := s.players[sessionId];
      var t := Add(s, sessionId, amount);
      assert t.players[sessionId].personalPrestige == p.personalPrestige + amount;
      if amount > 0 {
        var u := Remove(t, sessionId, amount);
        assert u.players == s.players[sessionId := p] == s.players;
        var house := HouseOf(s.houses[sessionId], p.skin);
        assert u.totals == Credit(Credit(s.totals, house, amount), house, -amount);
      } else {
        assert t.players == s.players;
        assert t.totals == s.totals;
      }
    }
  }

  /** The prestige rules of a room, awarding included. */
  class PrestigeSystem {
    var players: map<string, PlayerState>
    var houses: map<string, string>
    var totals: Totals

    constructor(players: map<string, PlayerState>, houses: map<string, string>, totals: Totals)
      ensures State() == RoomState(players, houses, totals)
    {
      this.players, this.houses, this.totals := players, houses, totals;
    }

    function State(): RoomState
      reads this
    {
      RoomState(players, houses, totals)
    }

    /** `addPrestige`, in place. */
    method AddPrestige(sessionId: string, amount: int)
      modifies this
      ensures State() == Add(old(State()), sessionId, amount)
    {
      if sessionId !in players || sessionId !in houses {
        return;
      }
      var playerState := players[sessionId];
      var house := HouseOf(houses[sessionId], playerState.skin);
      players := players[sessionId := playerState.(personalPrestige := playerState.personalPrestige + amount)];
      if house == "ignis" {
        totals := totals.(ignis := totals.ignis + amount);
      } else if house == "axiom" {
        totals := totals.(axiom := totals.axiom + amount);
      } else if house == "vesper" {
        totals := totals.(vesper := totals.vesper + amount);
      }
    }

    /** `removePrestige`, in place. */
    method RemovePrestige(sessionId: string, amount: int)
      modifies this
      ensures State() == Remove(old(State()), sessionId, amount)
    {
      players, totals := RemoveSteps(players, houses, totals, sessionId, amount);
    }
  }
}
