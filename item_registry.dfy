/**
 * src/shared/data/ItemRegistry.ts: the item definitions loaded from
 * items.json, and the album's card list, the `"Card"` entries ordered by
 * the number after the first `_` of their ID.
 *
 * items.json is not part of this model: the registry's values, in the
 * order `Object.values` lists them, are a parameter.
 */
module ItemRegistry {
  import opened Wrappers
  import opened Strings
  import opened Seqs

  /** `ItemDefinition`. */
  datatype ItemDef = ItemDef(id: string, name: string, itemType: string, stats: string,
                             description: string, rarity: string, stackable: bool)

  /** `item.Type === 'Card'`. */
  predicate IsCard(item: ItemDef) {
    item.itemType == "Card"
  }

  /** `parseInt(id.split('_')[1])`: `None` (NaN) when there is no `_` or no number after it. */
  function CardNumber(id: string): Option<int> {
    var pieces := Split(id, '_');
    if |pieces| < 2 then None else ParseInt(pieces[1])
  }

  /** `parseInt(...) || 0`: the card number, with NaN read as 0. */
  function SortKey(item: ItemDef): int {
    CardNumber(item.id).GetOr(0)
  }

  /** The comparator `idA - idB`, as the order it defines. */
  predicate ByNumber(a: ItemDef, b: ItemDef) {
    SortKey(a) <= SortKey(b)
  }

  /** `GET_ALL_CARDS`: the cards of the registry, stably sorted by number. */
  function GetAllCards(values: seq<ItemDef>): seq<ItemDef> {
    Sort(Filter(values, IsCard), ByNumber)
  }

  /**
   * The card list holds exactly the registry's cards, each as often as it
   * occurs there and nothing else, in ascending order of number.
   */
  lemma GetAllCardsSpec(values: seq<ItemDef>)
    ensures var r := GetAllCards(values);
      && (forall x :: multiset(r)[x] == if IsCard(x) then multiset(values)[x] else 0)
      && (forall i, j :: 0 <= i < j < |r| ==> SortKey(r[i]) <= SortKey(r[j]))
  {
    var cards := Filter(values, IsCard);
    forall x ensures multiset(GetAllCards(values))[x] == if IsCard(x) then multiset(values)[x] else 0 {
      FilterCounts(values, IsCard, x);
    }
    SortSorted(cards, ByNumber);
  }

  /** `TOTAL_CARDS`: the length of the card list, which is the number of cards in the registry. */
  function TotalCards(values: seq<ItemDef>): (n: nat)
    ensures n == |Filter(values, IsCard)| && n <= |values|
  {
    assert |GetAllCards(values)| == |multiset(GetAllCards(values))|;
    |GetAllCards(values)|
  }

  /** An ID `<prefix>_<n>` without another `_` in front numbers its card `n`, whatever the prefix. */
  lemma CardNumberOf(prefix: string, n: nat)
    requires '_' !in prefix
    ensures CardNumber(prefix + ['_'] + NatToString(n)) == Some(n)
  {
    var digits := NatToString(n);
    SplitFirst(prefix, '_', digits);
    assert '_' !in digits by {
      forall k | 0 <= k < |digits| ensures digits[k] != '_' { }
    }
    SplitNone(digits, '_');
    ParseIntOfNat(n);
  }
}
