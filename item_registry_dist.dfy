/**
 * dist-server/shared/data/ItemRegistry.js: the server build's card list.
 * Its comparator differs from the client's: cards with a number after the
 * first `_` come first, in ascending order of number, and the others follow
 * in order of their ID.
 */
module ItemRegistryDist {
  import opened Wrappers
  import opened Strings
  import opened Seqs
  import opened ItemRegistry

  /** The comparator of `GET_ALL_CARDS`, as the order it defines (`localeCompare` read as plain code-unit order). */
  predicate NumbersFirst(a: ItemDef, b: ItemDef) {
    match (CardNumber(a.id), CardNumber(b.id))
    case (Some(x), Some(y)) => x <= y
    case (Some(_), None) => true
    case (None, Some(_)) => false
    case (None, None) => LexLe(a.id, b.id)
  }

  /** The comparator is a total preorder, so the sort is well defined. */
  lemma NumbersFirstOrders()
    ensures TotalPreorder(NumbersFirst)
  {
    forall a, b ensures NumbersFirst(a, b) || NumbersFirst(b, a) {
      LexTotal(a.id, b.id);
    }
    forall a, b, c | NumbersFirst(a, b) && NumbersFirst(b, c) ensures NumbersFirst(a, c) {
      if CardNumber(a.id).None? && CardNumber(b.id).None? && CardNumber(c.id).None? {
        LexTrans(a.id, b.id, c.id);
      }
    }
  }

  /** `GET_ALL_CARDS`: the cards of the registry, stably sorted numbers first. */
  function GetAllCardsDist(values: seq<ItemDef>): seq<ItemDef> {
    Sort(Filter(values, IsCard), NumbersFirst)
  }

  /**
   * The card list holds exactly the registry's cards, each as often as it
   * occurs; every numbered card precedes every unnumbered one, numbered
   * cards ascend by number and unnumbered ones by ID.
   */
  lemma GetAllCardsDistSpec(values: seq<ItemDef>)
    ensures var r := GetAllCardsDist(values);
      && (forall x :: multiset(r)[x] == if IsCard(x) then multiset(values)[x] else 0)
      && (forall i, j :: 0 <= i < j < |r| && CardNumber(r[j].id).Some? ==> CardNumber(r[i].id).Some?)
      && (forall i, j :: 0 <= i < j < |r| && CardNumber(r[i].id).Some? && CardNumber(r[j].id).Some? ==>
            CardNumber(r[i].id).value <= CardNumber(r[j].id).value)
      && (forall i, j :: 0 <= i < j < |r| && CardNumber(r[i].id).None? && CardNumber(r[j].id).None? ==>
            LexLe(r[i].id, r[j].id))
  {
    forall x ensures multiset(GetAllCardsDist(values))[x] == if IsCard(x) then multiset(values)[x] else 0 {
      FilterCounts(values, IsCard, x);
    }
    NumbersFirstOrders();
    SortSorted(Filter(values, IsCard), NumbersFirst);
  }

  /** `TOTAL_CARDS`: the length of the list, the number of cards in the registry. */
  function TotalCardsDist(values: seq<ItemDef>): (n: nat)
    ensures n == |Filter(values, IsCard)| && n <= |values|
  {
    assert |GetAllCardsDist(values)| == |multiset(GetAllCardsDist(values))|;
    |GetAllCardsDist(values)|
  }

  /** Both builds list the same cards; they may differ only in order. */
  lemma SameCardsBothBuilds(values: seq<ItemDef>)
    ensures multiset(GetAllCardsDist(values)) == multiset(GetAllCards(values))
    ensures TotalCardsDist(values) == TotalCards(values)
  {
  }
}
