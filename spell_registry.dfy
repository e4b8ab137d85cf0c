/**
 * src/shared/items/SpellRegistry.ts: the three castable spells, each with
 * its rock-paper-scissors type, the classification of a spell id by the
 * first registry key it contains, and the resolution of a clash.
 */
module SpellRegistry {
  import opened Strings

  /** `SpellType`. */
  datatype SpellType = Rock | Paper | Scissors | Unknown

  /** `SpellConfig`: colour as a 24-bit RGB number, speed in px/s, cooldown in ms. */
  datatype SpellConfig = SpellConfig(id: string, spellType: SpellType, color: nat, speed: nat, cooldown: nat, shape: string)

  /** `SPELL_REGISTRY` in key order; each entry's key is its id. The line shape has no entry. */
  const Registry: seq<SpellConfig> := [
    SpellConfig("circle", Rock, 0x0000ff, 400, 500, "circle"),
    SpellConfig("square", Paper, 0xff00ff, 400, 500, "square"),
    SpellConfig("triangle", Scissors, 0xff0000, 400, 500, "triangle")]

  /** Position of the first registry key at or after `from` that occurs in `spellId`, or the registry's length. */
  function FirstKeyIn(spellId: string, from: nat): nat
    requires from <= |Registry|
    decreases |Registry| - from
  {
    if from == |Registry| || Contains(spellId, Registry[from].id) then from else FirstKeyIn(spellId, from + 1)
  }

  /** The search stops at the first key the id contains, or past the end when it contains none. */
  lemma {:induction false} FirstKeyInSpec(spellId: string, from: nat)
    requires from <= |Registry|
    ensures var k := FirstKeyIn(spellId, from);
      && from <= k <= |Registry|
      && (forall j :: from <= j < k ==> !Contains(spellId, Registry[j].id))
      && (k < |Registry| ==> Contains(spellId, Registry[k].id))
    decreases |Registry| - from
  {
    if from < |Registry| && !Contains(spellId, Registry[from].id) {
      FirstKeyInSpec(spellId, from + 1);
    }
  }

  /** `getSpellType`: the type of the first registry key that occurs in the id, else `Unknown`. */
  function GetSpellType(spellId: string): SpellType {
    var k := FirstKeyIn(spellId, 0);
    if k < |Registry| then Registry[k].spellType else Unknown
  }

  /** An id is `Unknown` exactly when it contains no key; otherwise it takes the type of the first key it contains. */
  lemma GetSpellTypeSpec(spellId: string)
    ensures var t := GetSpellType(spellId);
      && (t == Unknown <==> forall j :: 0 <= j < |Registry| ==> !Contains(spellId, Registry[j].id))
      && (t != Unknown ==> exists j :: (0 <= j < |Registry| && Contains(spellId, Registry[j].id)
           && t == Registry[j].spellType && forall i :: 0 <= i < j ==> !Contains(spellId, Registry[i].id)))
  {
    FirstKeyInSpec(spellId, 0);
    var k := FirstKeyIn(spellId, 0);
    if k < |Registry| {
      assert Registry[k].spellType != Unknown;
    }
  }

  /** A key that occurs at its own start classifies the id, and the registry has no line spell. */
  lemma GetSpellTypeExamples()
    ensures GetSpellType("triangle#1") == Scissors
    ensures GetSpellType("circle") == Rock
    ensures GetSpellType("line") == Unknown
  {
    // "triangle#1" contains no earlier key and starts with "triangle".
    TriangleFirst("triangle#1");
    // "circle" contains the first key.
    ContainsSelf("circle");
    GetSpellTypeSpec("circle");
    // "line" contains no key.
    NoKeyInLine();
    GetSpellTypeSpec("line");
  }

  /** An id that starts with "triangle" and has no 'c' and no 's' is a scissors spell. */
  lemma TriangleFirst(id: string)
    requires StartsWith(id, "triangle") && 'c' !in id && 's' !in id
    ensures GetSpellType(id) == Scissors
  {
    MissingFirstChar(id, Registry[0].id);
    MissingFirstChar(id, Registry[1].id);
    assert Contains(id, Registry[2].id);
    assert FirstKeyIn(id, 0) == FirstKeyIn(id, 1) == FirstKeyIn(id, 2) == 2;
  }

  /** "line" contains none of the keys: each is longer, or differs at every position. */
  lemma NoKeyInLine()
    ensures forall j :: 0 <= j < |Registry| ==> !Contains("line", Registry[j].id)
  {
    forall j | 0 <= j < |Registry| ensures !Contains("line", Registry[j].id) {
      ContainsIffOccurs("line", Registry[j].id);
    }
  }

  /** The winning relation: rock beats scissors, scissors beat paper, paper beats rock. */
  predicate Beats(a: SpellType, b: SpellType) {
    (a == Rock && b == Scissors) || (a == Scissors && b == Paper) || (a == Paper && b == Rock)
  }

  /** `resolveRPS`: 0 for a tie, 1 when the first type wins, 2 otherwise (the second wins, `Unknown` always losing as the first). */
  function ResolveRps(t1: SpellType, t2: SpellType): (r: nat)
    ensures r == 0 <==> t1 == t2
    ensures r == 1 <==> Beats(t1, t2)
    ensures r == 2 <==> t1 != t2 && !Beats(t1, t2)
  {
    if t1 == t2 then 0
    else if t1 == Rock && t2 == Scissors then 1
    else if t1 == Scissors && t2 == Paper then 1
    else if t1 == Paper && t2 == Rock then 1
    else 2
  }

  /** Among rock, paper and scissors the result is antisymmetric: the first wins exactly when, swapped, the second wins. */
  lemma ResolveAntisymmetric(a: SpellType, b: SpellType)
    requires a != Unknown && b != Unknown && a != b
    ensures ResolveRps(a, b) == 1 <==> ResolveRps(b, a) == 2
  {
  }

  /** A clash with an unknown type on either side, and distinct types, resolves as 2 in both orders. */
  lemma UnknownNeverWins(a: SpellType, b: SpellType)
    requires (a == Unknown || b == Unknown) && a != b
    ensures ResolveRps(a, b) == 2 && ResolveRps(b, a) == 2
  {
  }
}
