/** Card records, themes and the built-in symbol sets of the memory game. */
module Cards {

  datatype Option<T> = None | Some(value: T)

  /** A card face: one emoji or letter, as a string. */
  type Symbol = string

  /** One card on the board, as built by createCard (item, isFlipped, isMatched). */
  datatype Card = Card(item: Symbol, isFlipped: bool, isMatched: bool)

  /** A named, ordered list of symbols. */
  datatype Theme = Theme(name: string, items: seq<Symbol>)

  /** The three built-in themes, in their fixed order. */
  const DefaultThemes: seq<Theme> := [
    Theme("Животные", ["🐶", "🐱", "🐭", "🐰", "🦊", "🐻", "🐼", "🐨", "🐔", "🐷"]),
    Theme("Фрукты", ["🍎", "🍊", "🍇", "🍓", "🍌", "🍒", "🍑", "🥭", "🍍", "🥝"]),
    Theme("Цвета", ["🔴", "🟠", "🟡", "🟢", "🔵", "🟣", "⚫", "⚪", "🟤", "🟫"])
  ]

  /** The letters used when the current theme cannot be found. */
  const FallbackItems: seq<Symbol> := ["A", "B", "C", "D", "E", "F", "G", "H", "I", "J"]

  predicate Distinct<T(==)>(s: seq<T>) {
    forall i, j | 0 <= i < j < |s| :: s[i] != s[j]
  }

  function Min(a: nat, b: nat): (m: nat)
    ensures m <= a && m <= b && (m == a || m == b)
  {
    if a <= b then a else b
  }

  /** Every built-in symbol list has ten pairwise different symbols. */
  lemma BuiltInSymbolsDistinct()
    ensures forall t | t in DefaultThemes :: |t.items| == 10 && Distinct(t.items)
    ensures |FallbackItems| == 10 && Distinct(FallbackItems)
  {
    AnimalsDistinct();
    FruitsDistinct();
    ColoursDistinct();
    TenDistinct(FallbackItems);
  }

  lemma AnimalsDistinct()
    ensures Distinct(DefaultThemes[0].items)
  {
    TenDistinct(DefaultThemes[0].items);
  }

  lemma FruitsDistinct()
    ensures Distinct(DefaultThemes[1].items)
  {
    TenDistinct(DefaultThemes[1].items);
  }

  lemma ColoursDistinct()
    ensures Distinct(DefaultThemes[2].items)
  {
    TenDistinct(DefaultThemes[2].items);
  }

  /** Distinctness of a ten-element list of one-character symbols, decided by first characters. */
  lemma TenDistinct(s: seq<Symbol>)
    requires |s| == 10 && forall k | 0 <= k < 10 :: |s[k]| == 1
    requires s[0][0] !in [s[1][0], s[2][0], s[3][0], s[4][0], s[5][0], s[6][0], s[7][0], s[8][0], s[9][0]]
    requires s[1][0] !in [s[2][0], s[3][0], s[4][0], s[5][0], s[6][0], s[7][0], s[8][0], s[9][0]]
    requires s[2][0] !in [s[3][0], s[4][0], s[5][0], s[6][0], s[7][0], s[8][0], s[9][0]]
    requires s[3][0] !in [s[4][0], s[5][0], s[6][0], s[7][0], s[8][0], s[9][0]]
    requires s[4][0] !in [s[5][0], s[6][0], s[7][0], s[8][0], s[9][0]]
    requires s[5][0] !in [s[6][0], s[7][0], s[8][0], s[9][0]]
    requires s[6][0] !in [s[7][0], s[8][0], s[9][0]]
    requires s[7][0] !in [s[8][0], s[9][0]]
    requires s[8][0] != s[9][0]
    ensures Distinct(s)
  {
  }

  /** A fresh card for every symbol, face down and unmatched, in the same order. */
  function FreshCards(items: seq<Symbol>): (cards: seq<Card>)
    ensures |cards| == |items|
    ensures forall k | 0 <= k < |cards| :: cards[k] == Card(items[k], false, false)
  {
    seq(|items|, k requires 0 <= k < |items| => Card(items[k], false, false))
  }

  /** The symbols of the cards, in board order. */
  function Items(cards: seq<Card>): (items: seq<Symbol>)
    ensures |items| == |cards|
    ensures forall k | 0 <= k < |cards| :: items[k] == cards[k].item
  {
    seq(|cards|, k requires 0 <= k < |cards| => cards[k].item)
  }

  function Indicator(c: Card): nat {
    if c.isMatched then 1 else 0
  }

  /** The number of cards on the board that carry isMatched. */
  function MatchedCount(cards: seq<Card>): (n: nat)
    ensures n <= |cards|
    ensures n == 0 <== forall k | 0 <= k < |cards| :: !cards[k].isMatched
  {
    if cards == [] then 0 else Indicator(cards[0]) + MatchedCount(cards[1..])
  }

  /** Replacing one card changes the count by the difference of the two indicators. */
  lemma {:induction false} MatchedCountUpdate(cards: seq<Card>, k: nat, c: Card)
    requires k < |cards|
    ensures MatchedCount(cards[k := c]) == MatchedCount(cards) - Indicator(cards[k]) + Indicator(c)
  {
    if k == 0 {
      assert cards[k := c][1..] == cards[1..];
    } else {
      assert cards[k := c][1..] == cards[1..][k - 1 := c];
      MatchedCountUpdate(cards[1..], k - 1, c);
    }
  }

  /** The count reaches the number of cards exactly when every card is matched. */
  lemma {:induction false} MatchedCountFull(cards: seq<Card>)
    ensures MatchedCount(cards) == |cards| <==> forall k | 0 <= k < |cards| :: cards[k].isMatched
  {
    if cards != [] {
      MatchedCountFull(cards[1..]);
      if MatchedCount(cards) == |cards| {
        forall k | 0 <= k < |cards| ensures cards[k].isMatched {
          if k > 0 { assert cards[k] == cards[1..][k - 1]; }
        }
      }
      if forall k | 0 <= k < |cards| :: cards[k].isMatched {
        forall k | 0 <= k < |cards| - 1 ensures cards[1..][k].isMatched {
          assert cards[1..][k] == cards[k + 1];
        }
      }
    }
  }

  /** In a sequence without repetitions every element occurs exactly once. */
  lemma {:induction false} DistinctOccursOnce<T>(s: seq<T>)
    requires Distinct(s)
    ensures forall x :: multiset(s)[x] == if x in s then 1 else 0
  {
    if s != [] {
      assert Distinct(s[1..]) by {
        forall i, j | 0 <= i < j < |s[1..]| ensures s[1..][i] != s[1..][j] {
          assert s[1..][i] == s[i + 1] && s[1..][j] == s[j + 1];
        }
      }
      DistinctOccursOnce(s[1..]);
      assert s == [s[0]] + s[1..];
      assert s[0] !in s[1..];
      forall x ensures multiset(s)[x] == if x in s then 1 else 0 {
        assert multiset(s) == multiset{s[0]} + multiset(s[1..]);
        assert x in s <==> x == s[0] || x in s[1..];
      }
    }
  }

  /** A prefix has no element more often than the whole sequence. */
  lemma PrefixSubMultiset<T>(s: seq<T>, k: nat)
    requires k <= |s|
    ensures multiset(s[..k]) <= multiset(s)
    ensures Distinct(s) ==> Distinct(s[..k])
  {
    assert s == s[..k] + s[k..];
    assert multiset(s) == multiset(s[..k]) + multiset(s[k..]);
  }

  lemma ItemsOfFreshCards(items: seq<Symbol>)
    ensures Items(FreshCards(items)) == items
  {
  }
}
