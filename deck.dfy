/**
 * Deck construction: getCardItemsArray picks the symbols for a new game and
 * showCards turns them, doubled and shuffled, into fresh card records.
 */
module Deck {
  import opened Cards
  import opened Shuffle

  /**
   * The symbols getCardItemsArray draws from: the items of the theme at `index`
   * when there is one, the fallback letters otherwise.
   */
  function Pool(themes: seq<Theme>, index: int): seq<Symbol> {
    if 0 <= index < |themes| then themes[index].items else FallbackItems
  }

  /** How many pairs the deck gets: `slice(0, totalPairs)` stops at the end of the pool. */
  function PairCount(themes: seq<Theme>, index: int, totalPairs: nat): nat {
    Min(totalPairs, |Pool(themes, index)|)
  }

  /** The symbols getCardItemsArray returns for the draws `itemSwaps`. */
  function ChosenItems(themes: seq<Theme>, index: int, totalPairs: nat, itemSwaps: seq<nat>): (chosen: seq<Symbol>)
    requires IsSwapSeq(itemSwaps, |Pool(themes, index)|)
    ensures |chosen| == PairCount(themes, index, totalPairs)
  {
    Shuffled(Pool(themes, index), itemSwaps)[..PairCount(themes, index, totalPairs)]
  }

  /** The draws of one new deck: one shuffle of the pool, one of the doubled symbols. */
  predicate ShuffleInputs(themes: seq<Theme>, index: int, totalPairs: nat, itemSwaps: seq<nat>, deckSwaps: seq<nat>) {
    && IsSwapSeq(itemSwaps, |Pool(themes, index)|)
    && IsSwapSeq(deckSwaps, 2 * PairCount(themes, index, totalPairs))
  }

  /** The cards showCards builds: the chosen symbols twice over, shuffled, all face down. */
  function NewDeck(themes: seq<Theme>, index: int, totalPairs: nat, itemSwaps: seq<nat>, deckSwaps: seq<nat>): seq<Card>
    requires ShuffleInputs(themes, index, totalPairs, itemSwaps, deckSwaps)
  {
    var chosen := ChosenItems(themes, index, totalPairs, itemSwaps);
    FreshCards(Shuffled(chosen + chosen, deckSwaps))
  }

  /** getCardItemsArray: copy the pool into an array, shuffle it in place, keep a prefix. */
  method GetCardItems(themes: seq<Theme>, index: int, totalPairs: nat, itemSwaps: seq<nat>) returns (items: seq<Symbol>)
    requires IsSwapSeq(itemSwaps, |Pool(themes, index)|)
    ensures items == ChosenItems(themes, index, totalPairs, itemSwaps)
    ensures |items| == Min(totalPairs, |Pool(themes, index)|)
  {
    var source := Pool(themes, index);
    var arr := new Symbol[|source|](k requires 0 <= k < |source| => source[k]);
    assert arr[..] == source;
    ShuffleArray(arr, itemSwaps);
    assert arr[..] == Shuffled(Pool(themes, index), itemSwaps);
    items := arr[..Min(totalPairs, arr.Length)];
  }

  /** The full set of showCards: the chosen symbols twice over, shuffled in place. */
  method ShuffledPairs(cardItems: seq<Symbol>, deckSwaps: seq<nat>) returns (fullSet: array<Symbol>)
    requires IsSwapSeq(deckSwaps, 2 * |cardItems|)
    ensures fresh(fullSet)
    ensures fullSet[..] == Shuffled(cardItems + cardItems, deckSwaps)
  {
    var n := |cardItems|;
    fullSet := new Symbol[2 * n](k requires 0 <= k < 2 * n => if k < n then cardItems[k] else cardItems[k - n]);
    assert fullSet[..] == cardItems + cardItems;
    ShuffleArray(fullSet, deckSwaps);
  }

  /** The chosen symbols come from the pool, and are distinct when the pool's are. */
  lemma ChosenItemsFromPool(themes: seq<Theme>, index: int, totalPairs: nat, itemSwaps: seq<nat>)
    requires IsSwapSeq(itemSwaps, |Pool(themes, index)|)
    ensures |ChosenItems(themes, index, totalPairs, itemSwaps)| == Min(totalPairs, |Pool(themes, index)|)
    ensures multiset(ChosenItems(themes, index, totalPairs, itemSwaps)) <= multiset(Pool(themes, index))
    ensures Distinct(Pool(themes, index)) ==> Distinct(ChosenItems(themes, index, totalPairs, itemSwaps))
  {
    var pool := Pool(themes, index);
    var arr := Shuffled(pool, itemSwaps);
    ShuffledIsPermutation(pool, itemSwaps);
    PrefixSubMultiset(arr, PairCount(themes, index, totalPairs));
    if Distinct(pool) {
      ShuffleFromDistinct(pool, itemSwaps, |pool| - 1);
    }
  }

  /**
   * The deck has two cards per chosen symbol, all face down and unmatched, and
   * holds the chosen symbols exactly twice over.
   */
  lemma NewDeckShape(themes: seq<Theme>, index: int, totalPairs: nat, itemSwaps: seq<nat>, deckSwaps: seq<nat>)
    requires ShuffleInputs(themes, index, totalPairs, itemSwaps, deckSwaps)
    ensures |NewDeck(themes, index, totalPairs, itemSwaps, deckSwaps)| == 2 * PairCount(themes, index, totalPairs)
    ensures forall k | 0 <= k < |NewDeck(themes, index, totalPairs, itemSwaps, deckSwaps)| ::
      var c := NewDeck(themes, index, totalPairs, itemSwaps, deckSwaps)[k]; !c.isFlipped && !c.isMatched
    ensures var chosen := ChosenItems(themes, index, totalPairs, itemSwaps);
      multiset(Items(NewDeck(themes, index, totalPairs, itemSwaps, deckSwaps))) == multiset(chosen) + multiset(chosen)
  {
    var chosen := ChosenItems(themes, index, totalPairs, itemSwaps);
    ShuffledIsPermutation(chosen + chosen, deckSwaps);
    ItemsOfFreshCards(Shuffled(chosen + chosen, deckSwaps));
  }

  /** With a pool of distinct symbols, every chosen symbol lies on exactly two cards and no other symbol on any. */
  lemma NewDeckPairs(themes: seq<Theme>, index: int, totalPairs: nat, itemSwaps: seq<nat>, deckSwaps: seq<nat>)
    requires ShuffleInputs(themes, index, totalPairs, itemSwaps, deckSwaps)
    requires Distinct(Pool(themes, index))
    ensures var chosen := ChosenItems(themes, index, totalPairs, itemSwaps);
      forall x :: multiset(Items(NewDeck(themes, index, totalPairs, itemSwaps, deckSwaps)))[x] == if x in chosen then 2 else 0
  {
    var chosen := ChosenItems(themes, index, totalPairs, itemSwaps);
    NewDeckShape(themes, index, totalPairs, itemSwaps, deckSwaps);
    ChosenItemsFromPool(themes, index, totalPairs, itemSwaps);
    DistinctOccursOnce(chosen);
  }

  /**
   * With a built-in theme (or the fallback letters) and at most ten pairs, the
   * deck has exactly `2 * totalPairs` cards and each chosen symbol lies on two of them.
   */
  lemma BuiltInDeck(themes: seq<Theme>, index: int, totalPairs: nat, itemSwaps: seq<nat>, deckSwaps: seq<nat>)
    requires ShuffleInputs(themes, index, totalPairs, itemSwaps, deckSwaps)
    requires 0 <= index < |themes| ==> themes[index] in DefaultThemes
    requires totalPairs <= 10
    ensures |NewDeck(themes, index, totalPairs, itemSwaps, deckSwaps)| == 2 * totalPairs
    ensures var chosen := ChosenItems(themes, index, totalPairs, itemSwaps);
      |chosen| == totalPairs &&
      forall x :: multiset(Items(NewDeck(themes, index, totalPairs, itemSwaps, deckSwaps)))[x] == if x in chosen then 2 else 0
  {
    BuiltInSymbolsDistinct();
    NewDeckShape(themes, index, totalPairs, itemSwaps, deckSwaps);
    NewDeckPairs(themes, index, totalPairs, itemSwaps, deckSwaps);
  }
}
