/**
 * The widget's closure as an object: the variables the event handlers share
 * are fields, and every handler is a method that updates them in place. Each
 * method is proved to leave the fields exactly as the matching transition of
 * Engine says, so everything proved about Engine holds of the object.
 */
module Game {
  import opened Cards
  import opened Shuffle
  import opened Deck
  import Selectors
  import Engine

  class MemoryGame {
    var themes: seq<Theme>
    var currentThemeIndex: int
    var themeIndex: int
    var totalPairs: nat
    var difficultyIndex: nat
    var cards: seq<Card>
    var matchedPairs: nat
    var attempts: nat
    var firstCard: Option<nat>
    var secondCard: Option<nat>
    var isBoardLocked: bool
    var isGameStarted: bool

    /** The two settings kept in the browser's storage between visits. */
    var storedDifficulty: Option<nat>
    var storedThemeIndex: Option<int>

    /** The fields of the game, as one value. */
    function State(): Engine.Session
      reads this
    {
      Engine.Session(themes, currentThemeIndex, themeIndex, totalPairs, difficultyIndex, cards,
                     matchedPairs, attempts, firstCard, secondCard, isBoardLocked, isGameStarted)
    }

    predicate Valid()
      reads this
    {
      Engine.Valid(State())
    }

    /**
     * Initialisation up to the theme load: default parameters, the saved
     * settings (loadGameState), then the difficulty and theme indices that
     * showGameField derives while the theme list is still empty. The two
     * indices are set to what the InitDifficultyIndex and InitThemeIndex
     * methods below compute, given directly by their specifying functions.
     */
    constructor (difficulty: nat, savedDifficulty: Option<nat>, savedThemeIndex: Option<int>)
      ensures State() == Engine.Initial(difficulty, savedDifficulty, savedThemeIndex)
      ensures Valid()
      ensures storedDifficulty == savedDifficulty && storedThemeIndex == savedThemeIndex
    {
      var pairs := if difficulty == 0 then 2 else difficulty;
      var current := 0;
      if savedDifficulty.Some? {
        pairs := savedDifficulty.value;
      }
      if savedThemeIndex.Some? {
        current := savedThemeIndex.value;
      }
      assert pairs == Engine.StartPairs(difficulty, savedDifficulty);
      themes := [];
      totalPairs := pairs;
      difficultyIndex := Selectors.InitDifficultyIndex(pairs);
      currentThemeIndex := Selectors.InitThemeIndex(current, 0);
      themeIndex := currentThemeIndex;
      cards := [];
      matchedPairs := 0;
      attempts := 0;
      firstCard := None;
      secondCard := None;
      isBoardLocked := true;
      isGameStarted := false;
      storedDifficulty := savedDifficulty;
      storedThemeIndex := savedThemeIndex;
      new;
      Engine.InitialFields(difficulty, savedDifficulty, savedThemeIndex);
    }

    /** initDifficultyIndex: the level of the current pair count, or level 0. */
    method InitDifficultyIndex()
      modifies this`difficultyIndex
      ensures difficultyIndex == Selectors.InitDifficultyIndex(totalPairs)
    {
      var idx := Selectors.IndexOf(Selectors.Difficulties, totalPairs);
      difficultyIndex := if idx >= 0 then idx else 0;
    }

    /** initThemeIndex: an index outside the theme list falls back to 0. */
    method InitThemeIndex()
      modifies this`currentThemeIndex, this`themeIndex
      ensures currentThemeIndex == themeIndex == Selectors.InitThemeIndex(old(currentThemeIndex), |themes|)
    {
      if currentThemeIndex < 0 || currentThemeIndex >= |themes| {
        currentThemeIndex := 0;
      }
      themeIndex := currentThemeIndex;
    }

    method StartGame()
      requires Valid()
      modifies this
      ensures State() == Engine.StartGame(old(State()))
      ensures Valid()
      ensures unchanged(this`storedDifficulty, this`storedThemeIndex)
    {
      if isGameStarted {
        return;
      }
      isGameStarted := true;
      isBoardLocked := false;
    }

    method StopGame()
      modifies this`isGameStarted, this`isBoardLocked
      ensures State() == Engine.StopGame(old(State()))
    {
      isGameStarted := false;
      isBoardLocked := true;
    }

    method EndGame()
      modifies this`isGameStarted, this`isBoardLocked
      ensures State() == Engine.EndGame(old(State()))
    {
      StopGame();
    }

    /**
     * showCards: the chosen symbols twice over, shuffled in place, then one
     * fresh card per symbol pushed onto an emptied board.
     */
    method ShowCards(itemSwaps: seq<nat>, deckSwaps: seq<nat>)
      requires Engine.DeckInputs(State(), itemSwaps, deckSwaps)
      modifies this`cards
      ensures cards == NewDeck(themes, currentThemeIndex, totalPairs, itemSwaps, deckSwaps)
    {
      cards := [];
      var cardItems := GetCardItems(themes, currentThemeIndex, totalPairs, itemSwaps);
      var fullSet := ShuffledPairs(cardItems, deckSwaps);
      var k := 0;
      while k < fullSet.Length
        invariant 0 <= k <= fullSet.Length
        invariant cards == FreshCards(fullSet[..k])
        invariant fullSet[..] == Shuffled(cardItems + cardItems, deckSwaps)
      {
        cards := cards + [Card(fullSet[k], false, false)];
        k := k + 1;
      }
      assert fullSet[..k] == fullSet[..];
    }

    /** setupNewGame: stop, reset the counters and selections, deal a new board. */
    method SetupNewGame(itemSwaps: seq<nat>, deckSwaps: seq<nat>)
      requires Engine.Settings(State()) && Engine.DeckInputs(State(), itemSwaps, deckSwaps)
      modifies this
      ensures State() == Engine.SetupNewGame(old(State()), itemSwaps, deckSwaps)
      ensures Valid()
      ensures unchanged(this`storedDifficulty, this`storedThemeIndex)
    {
      ghost var target := Engine.SetupNewGame(State(), itemSwaps, deckSwaps);
      StopGame();
      matchedPairs := 0;
      attempts := 0;
      firstCard := None;
      secondCard := None;
      ShowCards(itemSwaps, deckSwaps);
      assert State() == target;
    }

    method RestartGame(itemSwaps: seq<nat>, deckSwaps: seq<nat>)
      requires Valid() && Engine.DeckInputs(State(), itemSwaps, deckSwaps)
      modifies this
      ensures State() == Engine.RestartGame(old(State()), itemSwaps, deckSwaps)
      ensures Valid()
      ensures unchanged(this`storedDifficulty, this`storedThemeIndex)
    {
      SetupNewGame(itemSwaps, deckSwaps);
    }

    /** A click on the card at position `i` of the board. */
    method FlipCard(i: nat)
      requires Valid()
      modifies this
      ensures State() == Engine.FlipCard(old(State()), i)
      ensures Valid()
      ensures unchanged(this`storedDifficulty, this`storedThemeIndex)
    {
      Engine.FlipCardValid(State(), i);
      if isBoardLocked || !isGameStarted {
        return;
      }
      if i >= |cards| || cards[i].isMatched || cards[i].isFlipped {
        return;
      }
      cards := cards[i := cards[i].(isFlipped := true)];
      if firstCard.None? {
        firstCard := Some(i);
      } else if secondCard.None? {
        secondCard := Some(i);
        CompareCards();
      }
    }

    /** compareCards: a found pair or a failed attempt. */
    method CompareCards()
      requires Engine.Indexed(State())
      modifies this
      ensures State() == Engine.CompareCards(old(State()))
      ensures unchanged(this`storedDifficulty, this`storedThemeIndex)
    {
      if firstCard.None? || secondCard.None? {
        return;
      }
      var f, c := firstCard.value, secondCard.value;
      if cards[f].item == cards[c].item {
        HighlightMatchedCards(f, c);
        matchedPairs := matchedPairs + 1;
      } else {
        isBoardLocked := true;
        attempts := attempts + 1;
      }
    }

    method FlipBack(k: nat)
      requires k < |cards|
      modifies this`cards
      ensures cards == Engine.FlipBack(old(cards), k)
    {
      cards := cards[k := cards[k].(isFlipped := false)];
    }

    method HighlightMatchedCards(a: nat, b: nat)
      requires a < |cards| && b < |cards|
      modifies this`cards
      ensures cards == Engine.HighlightMatchedCards(old(cards), a, b)
    {
      cards := cards[a := cards[a].(isMatched := true)];
      cards := cards[b := cards[b].(isMatched := true)];
    }

    /** The delayed callback after a found pair. */
    method MatchTimeout()
      requires Valid()
      modifies this
      ensures State() == Engine.MatchTimeout(old(State()))
      ensures Valid()
      ensures unchanged(this`storedDifficulty, this`storedThemeIndex)
    {
      firstCard := None;
      secondCard := None;
      if matchedPairs == totalPairs {
        EndGame();
      }
    }

    /**
     * The delayed callback after a failed attempt; `threw` reports the
     * exception flipBack raises on a missing selection, which ends the
     * callback early.
     */
    method MismatchTimeout() returns (threw: bool)
      requires Valid()
      modifies this`cards, this`firstCard, this`secondCard, this`isBoardLocked
      ensures threw == Engine.MismatchTimeoutThrows(old(State()))
      ensures State() == Engine.MismatchTimeout(old(State()))
      ensures Valid()
      ensures unchanged(this`storedDifficulty, this`storedThemeIndex)
    {
      ghost var s := State();
      threw := UnflipSelection();
      if s.firstCard.Some? && s.secondCard.Some? {
        Engine.MismatchTimeoutBoth(s);
      }
    }

    /**
     * The steps of the mismatch callback: each selected card face down in
     * turn, stopping at the first missing one, then the selections cleared
     * and the board unlocked.
     */
    method UnflipSelection() returns (threw: bool)
      requires Engine.Indexed(State())
      modifies this`cards, this`firstCard, this`secondCard, this`isBoardLocked
      ensures threw == (old(firstCard).None? || old(secondCard).None?)
      ensures old(firstCard).None? ==> State() == old(State())
      ensures old(firstCard).Some? && old(secondCard).None? ==>
        State() == old(State()).(cards := Engine.FlipBack(old(cards), old(firstCard).value))
      ensures old(firstCard).Some? && old(secondCard).Some? ==>
        State() == old(State()).(cards := Engine.FlipBack(Engine.FlipBack(old(cards), old(firstCard).value), old(secondCard).value),
                                 firstCard := None, secondCard := None, isBoardLocked := false)
    {
      if firstCard.None? {
        return true;
      }
      FlipBack(firstCard.value);
      if secondCard.None? {
        return true;
      }
      FlipBack(secondCard.value);
      firstCard := None;
      secondCard := None;
      isBoardLocked := false;
      return false;
    }

    /** setDifficulty: store the pair count and start a new game with it. */
    method SetDifficulty(newDiff: nat, itemSwaps: seq<nat>, deckSwaps: seq<nat>)
      requires Valid() && Engine.DeckInputs(State().(totalPairs := newDiff), itemSwaps, deckSwaps)
      modifies this
      ensures State() == Engine.SetDifficulty(old(State()), newDiff, itemSwaps, deckSwaps)
      ensures Valid()
      ensures storedDifficulty == Some(newDiff) && storedThemeIndex == old(storedThemeIndex)
    {
      totalPairs := newDiff;
      storedDifficulty := Some(newDiff);
      SetupNewGame(itemSwaps, deckSwaps);
    }

    /** changeDifficulty: the neighbouring level, with wrap-around. */
    method ChangeDifficulty(direction: int, itemSwaps: seq<nat>, deckSwaps: seq<nat>)
      requires Valid() && Engine.DeckInputs(Engine.DifficultyChosen(State(), direction), itemSwaps, deckSwaps)
      modifies this
      ensures State() == Engine.ChangeDifficulty(old(State()), direction, itemSwaps, deckSwaps)
      ensures Valid()
      ensures storedDifficulty == Some(totalPairs) && storedThemeIndex == old(storedThemeIndex)
    {
      var level := difficultyIndex + direction;
      if level < 0 {
        level := |Selectors.Difficulties| - 1;
      }
      if level >= |Selectors.Difficulties| {
        level := 0;
      }
      difficultyIndex := level;
      SetDifficulty(Selectors.Difficulties[level], itemSwaps, deckSwaps);
    }

    /** changeTheme: the neighbouring theme, with wrap-around, stored and dealt. */
    method ChangeTheme(direction: int, itemSwaps: seq<nat>, deckSwaps: seq<nat>)
      requires Valid()
      requires themes != [] ==> Engine.DeckInputs(Engine.ThemeChosen(State(), direction), itemSwaps, deckSwaps)
      modifies this
      ensures State() == Engine.ChangeTheme(old(State()), direction, itemSwaps, deckSwaps)
      ensures Valid()
      ensures storedDifficulty == old(storedDifficulty)
      ensures storedThemeIndex == if old(themes) == [] then old(storedThemeIndex) else Some(currentThemeIndex)
    {
      if themes == [] {
        return;
      }
      ghost var chosen := Engine.ThemeChosen(State(), direction);
      var t := themeIndex + direction;
      if t < 0 {
        t := |themes| - 1;
      }
      if t >= |themes| {
        t := 0;
      }
      themeIndex := t;
      currentThemeIndex := t;
      storedThemeIndex := Some(t);
      assert State() == chosen;
      SetupNewGame(itemSwaps, deckSwaps);
    }

    /**
     * loadThemes, once the theme list is resolved (`None`: no theme file, or
     * its fetch failed): install the themes, clamp the index, deal a board.
     */
    method LoadThemes(fetched: Option<seq<Theme>>, itemSwaps: seq<nat>, deckSwaps: seq<nat>)
      requires Valid() && Engine.DeckInputs(Engine.ThemesChosen(State(), fetched), itemSwaps, deckSwaps)
      modifies this
      ensures State() == Engine.LoadThemes(old(State()), fetched, itemSwaps, deckSwaps)
      ensures Valid()
      ensures unchanged(this`storedDifficulty, this`storedThemeIndex)
    {
      themes := Engine.LoadedThemes(fetched);
      InitThemeIndex();
      SetupNewGame(itemSwaps, deckSwaps);
    }
  }
}
