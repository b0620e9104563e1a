/**
 * The game engine as values: one Session holds every variable the event
 * handlers share, and every handler is a function from the old Session to the
 * new one. The class in Game keeps these variables as fields and is proved to
 * change them exactly as these functions say.
 */
module Engine {
  import opened Cards
  import opened Deck
  import opened Selectors

  /** The shared variables of one widget instance. */
  datatype Session = Session(
    themes: seq<Theme>,
    currentThemeIndex: int,
    themeIndex: int,
    totalPairs: nat,
    difficultyIndex: nat,
    cards: seq<Card>,
    matchedPairs: nat,
    attempts: nat,
    firstCard: Option<nat>,
    secondCard: Option<nat>,
    isBoardLocked: bool,
    isGameStarted: bool)

  /** The selections name cards of the current board, and there is a second only after a first. */
  predicate Indexed(s: Session) {
    && (s.firstCard.Some? ==> s.firstCard.value < |s.cards|)
    && (s.secondCard.Some? ==> s.firstCard.Some? && s.secondCard.value < |s.cards|)
  }

  /** The panel settings are in range: the difficulty level and the theme index. */
  predicate Settings(s: Session) {
    && s.difficultyIndex < |Difficulties|
    && 0 <= s.themeIndex == s.currentThemeIndex
    && (s.themes != [] ==> s.themeIndex < |s.themes|)
  }

  /**
   * What every handler keeps, whatever order the events come in: the settings
   * and the selections are in range, the found-pairs counter never exceeds the
   * matched cards, and the board never has more than two cards per pair to find.
   */
  predicate Valid(s: Session) {
    && Settings(s)
    && Indexed(s)
    && s.matchedPairs <= MatchedCount(s.cards)
    && |s.cards| <= 2 * s.totalPairs
  }

  /**
   * The invariant of a game whose pending selection is never half cleared:
   * matched cards come in counted pairs, a selected card is face up, and a
   * first selection still waiting for its partner is unmatched.
   */
  predicate Paired(s: Session) {
    && Valid(s)
    && 2 * s.matchedPairs == MatchedCount(s.cards)
    && (s.firstCard.Some? ==> s.cards[s.firstCard.value].isFlipped)
    && (s.firstCard.Some? && s.secondCard.None? ==> !s.cards[s.firstCard.value].isMatched)
  }

  /** The pair count after loadGameState: the saved difficulty, else the parameter or its default 2. */
  function StartPairs(difficulty: nat, savedDifficulty: Option<nat>): (n: nat)
    ensures savedDifficulty.Some? ==> n == savedDifficulty.value
    ensures savedDifficulty.None? ==> n == if difficulty == 0 then 2 else difficulty
  {
    match savedDifficulty { case Some(d) => d case None => if difficulty == 0 then 2 else difficulty }
  }

  /** Initial field by field: whatever index was saved, the empty theme list clamps it to 0. */
  lemma InitialFields(difficulty: nat, savedDifficulty: Option<nat>, savedThemeIndex: Option<int>)
    ensures var n := StartPairs(difficulty, savedDifficulty);
      Initial(difficulty, savedDifficulty, savedThemeIndex)
        == Session([], 0, 0, n, InitDifficultyIndex(n), [], 0, 0, None, None, true, false)
  {
  }

  /** The state of a widget right after initialisation, before the themes arrive. */
  function Initial(difficulty: nat, savedDifficulty: Option<nat>, savedThemeIndex: Option<int>): (s: Session)
    ensures Paired(s)
    ensures s.totalPairs == match savedDifficulty { case Some(d) => d case None => if difficulty == 0 then 2 else difficulty }
    ensures s.totalPairs in Difficulties ==> Difficulties[s.difficultyIndex] == s.totalPairs
    ensures s.totalPairs !in Difficulties ==> s.difficultyIndex == 0
    ensures s.themes == [] && s.cards == [] && s.isBoardLocked && !s.isGameStarted
    ensures s.matchedPairs == 0 && s.attempts == 0 && s.firstCard == None && s.secondCard == None
    ensures s.currentThemeIndex == 0 && s.themeIndex == 0
  {
    var totalPairs := StartPairs(difficulty, savedDifficulty);
    var current := match savedThemeIndex { case Some(t) => t case None => 0 };
    var themeIndex := InitThemeIndex(current, 0);
    Session([], themeIndex, themeIndex, totalPairs, InitDifficultyIndex(totalPairs), [],
            0, 0, None, None, true, false)
  }

  /** stopGame: the game is no longer running and the board is locked. */
  function StopGame(s: Session): (r: Session)
    ensures !r.isGameStarted && r.isBoardLocked
    ensures r.(isGameStarted := s.isGameStarted, isBoardLocked := s.isBoardLocked) == s
    ensures Valid(s) ==> Valid(r)
    ensures Paired(s) ==> Paired(r)
  {
    s.(isGameStarted := false, isBoardLocked := true)
  }

  /** endGame: stop the game once all pairs are found. */
  function EndGame(s: Session): (r: Session)
    ensures !r.isGameStarted && r.isBoardLocked
    ensures r.(isGameStarted := s.isGameStarted, isBoardLocked := s.isBoardLocked) == s
  {
    StopGame(s)
  }

  /** startGame: a game not yet running starts and unlocks the board; a running one is left alone. */
  function StartGame(s: Session): (r: Session)
    ensures r.isGameStarted
    ensures s.isGameStarted ==> r == s
    ensures !s.isGameStarted ==> !r.isBoardLocked
    ensures r.(isGameStarted := s.isGameStarted, isBoardLocked := s.isBoardLocked) == s
    ensures Valid(s) ==> Valid(r)
    ensures Paired(s) ==> Paired(r)
  {
    if s.isGameStarted then s else s.(isGameStarted := true, isBoardLocked := false)
  }

  /** The draws needed for the deck of the next new game of `s`. */
  predicate DeckInputs(s: Session, itemSwaps: seq<nat>, deckSwaps: seq<nat>) {
    ShuffleInputs(s.themes, s.currentThemeIndex, s.totalPairs, itemSwaps, deckSwaps)
  }

  /**
   * setupNewGame (and restartGame): stop, zero both counters, drop the
   * selections, and deal a new deck for the current theme and pair count.
   */
  function SetupNewGame(s: Session, itemSwaps: seq<nat>, deckSwaps: seq<nat>): (r: Session)
    requires Settings(s) && DeckInputs(s, itemSwaps, deckSwaps)
    ensures Paired(r)
    ensures r.matchedPairs == 0 && r.attempts == 0
    ensures r.firstCard == None && r.secondCard == None
    ensures !r.isGameStarted && r.isBoardLocked
    ensures r.cards == NewDeck(s.themes, s.currentThemeIndex, s.totalPairs, itemSwaps, deckSwaps)
    ensures r.themes == s.themes && r.currentThemeIndex == s.currentThemeIndex && r.themeIndex == s.themeIndex
    ensures r.totalPairs == s.totalPairs && r.difficultyIndex == s.difficultyIndex
  {
    var deck := NewDeck(s.themes, s.currentThemeIndex, s.totalPairs, itemSwaps, deckSwaps);
    NewDeckShape(s.themes, s.currentThemeIndex, s.totalPairs, itemSwaps, deckSwaps);
    StopGame(s).(matchedPairs := 0, attempts := 0, firstCard := None, secondCard := None, cards := deck)
  }

  /** restartGame is setupNewGame. */
  function RestartGame(s: Session, itemSwaps: seq<nat>, deckSwaps: seq<nat>): (r: Session)
    requires Settings(s) && DeckInputs(s, itemSwaps, deckSwaps)
    ensures Paired(r)
    ensures r.matchedPairs == 0 && r.attempts == 0 && !r.isGameStarted && r.isBoardLocked
    ensures r.firstCard == None && r.secondCard == None
    ensures |r.cards| == 2 * PairCount(s.themes, s.currentThemeIndex, s.totalPairs)
    ensures r.cards == NewDeck(s.themes, s.currentThemeIndex, s.totalPairs, itemSwaps, deckSwaps)
    ensures forall k | 0 <= k < |r.cards| :: !r.cards[k].isFlipped && !r.cards[k].isMatched
    ensures r.(cards := s.cards, matchedPairs := s.matchedPairs, attempts := s.attempts, firstCard := s.firstCard,
               secondCard := s.secondCard, isGameStarted := s.isGameStarted, isBoardLocked := s.isBoardLocked) == s
  {
    NewDeckShape(s.themes, s.currentThemeIndex, s.totalPairs, itemSwaps, deckSwaps);
    SetupNewGame(s, itemSwaps, deckSwaps)
  }

  /**
   * A second restart forgets everything the first one did: the result depends
   * only on the state before both and on the draws of the second.
   */
  lemma RestartTwice(s: Session, a1: seq<nat>, d1: seq<nat>, a2: seq<nat>, d2: seq<nat>)
    requires Settings(s) && DeckInputs(s, a1, d1) && DeckInputs(s, a2, d2)
    ensures DeckInputs(RestartGame(s, a1, d1), a2, d2)
    ensures RestartGame(RestartGame(s, a1, d1), a2, d2) == RestartGame(s, a2, d2)
  {
  }

  /** The card `k` face up (the front shown by flipCard). */
  function Reveal(cards: seq<Card>, k: nat): (r: seq<Card>)
    requires k < |cards|
    ensures |r| == |cards| && r[k] == cards[k].(isFlipped := true)
    ensures forall m | 0 <= m < |cards| && m != k :: r[m] == cards[m]
    ensures MatchedCount(r) == MatchedCount(cards)
  {
    MatchedCountUpdate(cards, k, cards[k].(isFlipped := true));
    cards[k := cards[k].(isFlipped := true)]
  }

  /** flipBack: card `k` face down again; whether it is matched is not touched. */
  function FlipBack(cards: seq<Card>, k: nat): (r: seq<Card>)
    requires k < |cards|
    ensures |r| == |cards| && r[k] == cards[k].(isFlipped := false)
    ensures forall m | 0 <= m < |cards| && m != k :: r[m] == cards[m]
    ensures MatchedCount(r) == MatchedCount(cards)
  {
    MatchedCountUpdate(cards, k, cards[k].(isFlipped := false));
    cards[k := cards[k].(isFlipped := false)]
  }

  /** highlightMatchedCards: both cards become matched; nothing else changes. */
  function HighlightMatchedCards(cards: seq<Card>, a: nat, b: nat): (r: seq<Card>)
    requires a < |cards| && b < |cards|
    ensures |r| == |cards| && r[a].isMatched && r[b].isMatched
    ensures r[a].item == cards[a].item && r[a].isFlipped == cards[a].isFlipped
    ensures r[b].item == cards[b].item && r[b].isFlipped == cards[b].isFlipped
    ensures forall m | 0 <= m < |cards| && m != a && m != b :: r[m] == cards[m]
    ensures a != b && !cards[a].isMatched && !cards[b].isMatched ==> MatchedCount(r) == MatchedCount(cards) + 2
    ensures a == b && !cards[a].isMatched ==> MatchedCount(r) == MatchedCount(cards) + 1
    ensures !cards[b].isMatched ==> MatchedCount(r) >= MatchedCount(cards) + 1
    ensures MatchedCount(r) >= MatchedCount(cards)
  {
    var once := cards[a := cards[a].(isMatched := true)];
    MatchedCountUpdate(cards, a, cards[a].(isMatched := true));
    MatchedCountUpdate(once, b, once[b].(isMatched := true));
    once[b := once[b].(isMatched := true)]
  }

  /**
   * compareCards: two cards with the same symbol are matched and counted as a
   * found pair; two different ones lock the board and count a failed attempt.
   */
  function CompareCards(s: Session): (r: Session)
    requires Indexed(s)
    ensures Indexed(r)
    ensures r.firstCard == s.firstCard && r.secondCard == s.secondCard
    ensures r.isGameStarted == s.isGameStarted && |r.cards| == |s.cards|
    ensures s.firstCard.None? || s.secondCard.None? ==> r == s
    ensures r.(cards := s.cards, matchedPairs := s.matchedPairs, attempts := s.attempts, isBoardLocked := s.isBoardLocked) == s
    ensures s.firstCard.Some? && s.secondCard.Some? ==>
      var f, c := s.firstCard.value, s.secondCard.value;
      if s.cards[f].item == s.cards[c].item then
        && r.cards == HighlightMatchedCards(s.cards, f, c)
        && r.cards[f].isMatched && r.cards[c].isMatched
        && r.matchedPairs == s.matchedPairs + 1 && r.attempts == s.attempts
        && r.isBoardLocked == s.isBoardLocked
      else
        && r.cards == s.cards && r.isBoardLocked
        && r.attempts == s.attempts + 1 && r.matchedPairs == s.matchedPairs
  {
    if s.firstCard.None? || s.secondCard.None? then s
    else
      var f, c := s.firstCard.value, s.secondCard.value;
      if s.cards[f].item == s.cards[c].item then
        s.(cards := HighlightMatchedCards(s.cards, f, c), matchedPairs := s.matchedPairs + 1)
      else
        s.(isBoardLocked := true, attempts := s.attempts + 1)
  }

  /** The guards of flipCard: any of them makes the click do nothing. */
  predicate FlipIgnored(s: Session, i: nat) {
    s.isBoardLocked || !s.isGameStarted || i >= |s.cards| || s.cards[i].isMatched || s.cards[i].isFlipped
  }

  /**
   * flipCard: a click on card `i`. Unless ignored, the card turns face up and
   * becomes the first selection, or the second one (and the two are compared),
   * or, with both selections still pending, is only shown.
   */
  function FlipCard(s: Session, i: nat): (r: Session)
    requires Indexed(s)
    ensures Indexed(r)
    ensures r.isGameStarted == s.isGameStarted && |r.cards| == |s.cards|
    ensures FlipIgnored(s, i) <==> r == s
    ensures !FlipIgnored(s, i) ==>
      && r.cards[i].isFlipped
      && (s.firstCard.None? ==> r.firstCard == Some(i) && r.secondCard == None && r.cards == Reveal(s.cards, i))
      && (s.firstCard.Some? && s.secondCard.None? ==>
            && r.firstCard == s.firstCard && r.secondCard == Some(i)
            && r == CompareCards(s.(cards := Reveal(s.cards, i), secondCard := Some(i))))
      && (s.secondCard.Some? ==> r.firstCard == s.firstCard && r.secondCard == s.secondCard && r.cards == Reveal(s.cards, i))
    ensures !FlipIgnored(s, i) && s.firstCard.None? ==> r == s.(cards := Reveal(s.cards, i), firstCard := Some(i))
    ensures !FlipIgnored(s, i) && s.secondCard.Some? ==> r == s.(cards := Reveal(s.cards, i))
    ensures s.matchedPairs <= r.matchedPairs <= s.matchedPairs + 1
    ensures s.attempts <= r.attempts <= s.attempts + 1
    ensures r.matchedPairs == s.matchedPairs || r.attempts == s.attempts
    ensures r.themes == s.themes && r.totalPairs == s.totalPairs
  {
    if FlipIgnored(s, i) then s
    else
      var shown := s.(cards := Reveal(s.cards, i));
      if shown.firstCard.None? then shown.(firstCard := Some(i))
      else if shown.secondCard.None? then CompareCards(shown.(secondCard := Some(i)))
      else shown
  }

  /** flipCard keeps the engine's invariant. */
  lemma FlipCardValid(s: Session, i: nat)
    requires Valid(s)
    ensures Valid(FlipCard(s, i))
  {
  }

  /** flipCard keeps the pairing invariant: a found pair always marks two fresh cards. */
  lemma FlipCardPaired(s: Session, i: nat)
    requires Paired(s)
    ensures Paired(FlipCard(s, i))
  {
    if !FlipIgnored(s, i) && s.firstCard.Some? && s.secondCard.None? {
      var f := s.firstCard.value;
      var shown := Reveal(s.cards, i);
      assert f != i;
      assert shown[f] == s.cards[f] && shown[i] == s.cards[i].(isFlipped := true);
    }
  }

  /**
   * The 300 ms callback after a match: it clears the CURRENT selections and
   * ends the game when the counter has reached the number of pairs.
   */
  function MatchTimeout(s: Session): (r: Session)
    requires Indexed(s)
    ensures r.firstCard == None && r.secondCard == None
    ensures r.cards == s.cards && r.matchedPairs == s.matchedPairs && r.attempts == s.attempts
    ensures r.isGameStarted == (s.isGameStarted && s.matchedPairs != s.totalPairs)
    ensures s.matchedPairs == s.totalPairs ==> r.isBoardLocked
    ensures s.matchedPairs != s.totalPairs ==> r.isBoardLocked == s.isBoardLocked
    ensures r.(firstCard := s.firstCard, secondCard := s.secondCard, isGameStarted := s.isGameStarted, isBoardLocked := s.isBoardLocked) == s
    ensures Valid(s) ==> Valid(r)
    ensures Paired(s) ==> Paired(r)
  {
    var cleared := s.(firstCard := None, secondCard := None);
    if cleared.matchedPairs == cleared.totalPairs then EndGame(cleared) else cleared
  }

  /** The mismatch callback stops at a missing selection: flipBack(null) throws. */
  predicate MismatchTimeoutThrows(s: Session) {
    s.firstCard.None? || s.secondCard.None?
  }

  /**
   * The 1000 ms callback after a mismatch: it turns the CURRENT selections face
   * down, clears them and unlocks the board. A missing selection makes flipBack
   * throw; what was done before the throw stays done.
   */
  function MismatchTimeout(s: Session): (r: Session)
    requires Indexed(s)
    ensures Indexed(r)
    ensures !MismatchTimeoutThrows(s) ==>
      && r.firstCard == None && r.secondCard == None && !r.isBoardLocked
      && r.cards == FlipBack(FlipBack(s.cards, s.firstCard.value), s.secondCard.value)
    ensures s.firstCard.None? ==> r == s
    ensures s.firstCard.Some? && s.secondCard.None? ==>
      r == s.(cards := FlipBack(s.cards, s.firstCard.value))
    ensures MatchedCount(r.cards) == MatchedCount(s.cards) && |r.cards| == |s.cards|
    ensures r.matchedPairs == s.matchedPairs && r.attempts == s.attempts && r.isGameStarted == s.isGameStarted
    ensures r.(cards := s.cards, firstCard := s.firstCard, secondCard := s.secondCard, isBoardLocked := s.isBoardLocked) == s
    ensures Valid(s) ==> Valid(r)
  {
    if s.firstCard.None? then s
    else
      var down := s.(cards := FlipBack(s.cards, s.firstCard.value));
      if down.secondCard.None? then down
      else down.(cards := FlipBack(down.cards, down.secondCard.value),
                 firstCard := None, secondCard := None, isBoardLocked := false)
  }

  /** The mismatch callback with both selections present, as one record update. */
  lemma MismatchTimeoutBoth(s: Session)
    requires Indexed(s) && s.firstCard.Some? && s.secondCard.Some?
    ensures MismatchTimeout(s) == s.(cards := FlipBack(FlipBack(s.cards, s.firstCard.value), s.secondCard.value),
                                     firstCard := None, secondCard := None, isBoardLocked := false)
  {
  }

  /** The mismatch callback keeps the pairing invariant unless exactly one card is selected. */
  lemma MismatchTimeoutPaired(s: Session)
    requires Paired(s)
    requires s.firstCard.Some? ==> s.secondCard.Some?
    ensures Paired(MismatchTimeout(s))
  {
  }

  /**
   * With exactly one card selected, the mismatch callback turns it face down but
   * leaves it selected; clicking it again then matches the card with itself and
   * counts a pair for a single card.
   */
  lemma StaleMismatchTimeoutMatchesCardWithItself(s: Session)
    requires Paired(s)
    requires s.firstCard.Some? && s.secondCard.None?
    requires s.isGameStarted && !s.isBoardLocked
    ensures !Paired(MismatchTimeout(s))
    ensures var f := s.firstCard.value;
      var r := FlipCard(MismatchTimeout(s), f);
      && r.firstCard == Some(f) && r.secondCard == Some(f)
      && r.cards[f].isMatched
      && r.matchedPairs == s.matchedPairs + 1
      && MatchedCount(r.cards) == MatchedCount(s.cards) + 1
      && 2 * r.matchedPairs != MatchedCount(r.cards)
  {
    var f := s.firstCard.value;
    var down := MismatchTimeout(s);
    assert down.cards[f] == s.cards[f].(isFlipped := false);
    assert !FlipIgnored(down, f);
    var shown := down.(cards := Reveal(down.cards, f));
    var picked := shown.(secondCard := Some(f));
    assert FlipCard(down, f) == CompareCards(picked);
    assert CompareCards(picked) == picked.(cards := HighlightMatchedCards(shown.cards, f, f), matchedPairs := s.matchedPairs + 1);
  }

  /**
   * The half-selection the stale callback needs is reachable: restart while a
   * mismatch callback is pending, press play and click one card. When the old
   * callback then fires, the lemma above applies.
   */
  lemma HalfSelectionAfterRestart(s: Session, itemSwaps: seq<nat>, deckSwaps: seq<nat>, i: nat)
    requires Valid(s) && DeckInputs(s, itemSwaps, deckSwaps)
    requires i < 2 * PairCount(s.themes, s.currentThemeIndex, s.totalPairs)
    ensures var t := FlipCard(StartGame(RestartGame(s, itemSwaps, deckSwaps)), i);
      && Paired(t) && t.firstCard == Some(i) && t.secondCard == None
      && t.isGameStarted && !t.isBoardLocked
  {
    var restarted := RestartGame(s, itemSwaps, deckSwaps);
    var started := StartGame(restarted);
    NewDeckShape(s.themes, s.currentThemeIndex, s.totalPairs, itemSwaps, deckSwaps);
    assert !FlipIgnored(started, i);
    FlipCardPaired(started, i);
  }

  /** setDifficulty: a new pair count, then a new game. */
  function SetDifficulty(s: Session, newDiff: nat, itemSwaps: seq<nat>, deckSwaps: seq<nat>): (r: Session)
    requires Settings(s) && DeckInputs(s.(totalPairs := newDiff), itemSwaps, deckSwaps)
    ensures Paired(r)
    ensures r.totalPairs == newDiff && r.difficultyIndex == s.difficultyIndex
    ensures r.themes == s.themes && r.currentThemeIndex == s.currentThemeIndex && r.themeIndex == s.themeIndex
    ensures r.matchedPairs == 0 && r.attempts == 0 && !r.isGameStarted && r.isBoardLocked
    ensures r.firstCard == None && r.secondCard == None
    ensures r.cards == NewDeck(s.themes, s.currentThemeIndex, newDiff, itemSwaps, deckSwaps)
  {
    SetupNewGame(s.(totalPairs := newDiff), itemSwaps, deckSwaps)
  }

  /** The state changeDifficulty hands to setDifficulty's new game. */
  function DifficultyChosen(s: Session, direction: int): (r: Session)
    requires Settings(s)
    ensures Settings(r)
    ensures r.difficultyIndex == Cycle(s.difficultyIndex, direction, |Difficulties|)
    ensures r.totalPairs == Difficulties[r.difficultyIndex]
    ensures r.(difficultyIndex := s.difficultyIndex, totalPairs := s.totalPairs) == s
  {
    var level := Cycle(s.difficultyIndex, direction, |Difficulties|);
    s.(difficultyIndex := level, totalPairs := Difficulties[level])
  }

  /**
   * changeDifficulty: step the level with wrap-around, take its pair count and
   * start a new game.
   */
  function ChangeDifficulty(s: Session, direction: int, itemSwaps: seq<nat>, deckSwaps: seq<nat>): (r: Session)
    requires Valid(s) && DeckInputs(DifficultyChosen(s, direction), itemSwaps, deckSwaps)
    ensures Paired(r)
    ensures r.difficultyIndex == Cycle(s.difficultyIndex, direction, |Difficulties|) < |Difficulties|
    ensures r.totalPairs == Difficulties[r.difficultyIndex] && r.totalPairs in Difficulties
    ensures r.matchedPairs == 0 && r.attempts == 0 && !r.isGameStarted && r.isBoardLocked
    ensures r.firstCard == None && r.secondCard == None
    ensures r.cards == NewDeck(s.themes, s.currentThemeIndex, r.totalPairs, itemSwaps, deckSwaps)
    ensures r == SetupNewGame(DifficultyChosen(s, direction), itemSwaps, deckSwaps)
  {
    var chosen := DifficultyChosen(s, direction);
    SetDifficulty(chosen, chosen.totalPairs, itemSwaps, deckSwaps)
  }

  /** The state changeTheme hands to setupNewGame. */
  function ThemeChosen(s: Session, direction: int): (r: Session)
    requires Valid(s)
    ensures Valid(r)
    ensures r.themeIndex == r.currentThemeIndex == ThemeStep(s.themeIndex, direction, |s.themes|)
    ensures r.(themeIndex := s.themeIndex, currentThemeIndex := s.currentThemeIndex) == s
  {
    var t := ThemeStep(s.themeIndex, direction, |s.themes|);
    s.(themeIndex := t, currentThemeIndex := t)
  }

  /**
   * changeTheme: with no theme names nothing happens; otherwise step the theme
   * index with wrap-around, make it the current theme and start a new game.
   */
  function ChangeTheme(s: Session, direction: int, itemSwaps: seq<nat>, deckSwaps: seq<nat>): (r: Session)
    requires Valid(s) && (s.themes != [] ==> DeckInputs(ThemeChosen(s, direction), itemSwaps, deckSwaps))
    ensures Valid(r)
    ensures s.themes == [] ==> r == s
    ensures s.themes != [] ==>
      && r.themeIndex == r.currentThemeIndex == Cycle(s.themeIndex, direction, |s.themes|)
      && 0 <= r.themeIndex < |s.themes|
      && r == SetupNewGame(ThemeChosen(s, direction), itemSwaps, deckSwaps)
  {
    if s.themes == [] then s
    else SetupNewGame(ThemeChosen(s, direction), itemSwaps, deckSwaps)
  }

  /** The theme list after loading: the built-ins, then the fetched themes on success. */
  function LoadedThemes(fetched: Option<seq<Theme>>): (themes: seq<Theme>)
    ensures |DefaultThemes| <= |themes| && themes[..|DefaultThemes|] == DefaultThemes
    ensures fetched.None? ==> themes == DefaultThemes
    ensures fetched.Some? ==> themes[|DefaultThemes|..] == fetched.value
  {
    match fetched
    case None => DefaultThemes
    case Some(loaded) => DefaultThemes + loaded
  }

  /** The state loadThemes hands to setupNewGame. */
  function ThemesChosen(s: Session, fetched: Option<seq<Theme>>): (r: Session)
    requires Valid(s)
    ensures Valid(r)
  {
    var themes := LoadedThemes(fetched);
    var t := InitThemeIndex(s.currentThemeIndex, |themes|);
    s.(themes := themes, currentThemeIndex := t, themeIndex := t)
  }

  /**
   * loadThemes, once the theme list is resolved (`None`: no file, or the fetch
   * failed): install the list, clamp the theme index, start a new game.
   */
  function LoadThemes(s: Session, fetched: Option<seq<Theme>>, itemSwaps: seq<nat>, deckSwaps: seq<nat>): (r: Session)
    requires Valid(s) && DeckInputs(ThemesChosen(s, fetched), itemSwaps, deckSwaps)
    ensures Paired(r)
    ensures r.themes == LoadedThemes(fetched)
    ensures 0 <= r.themeIndex == r.currentThemeIndex < |r.themes|
    ensures 0 <= s.currentThemeIndex < |r.themes| ==> r.themeIndex == s.currentThemeIndex
    ensures r.matchedPairs == 0 && r.attempts == 0 && !r.isGameStarted && r.isBoardLocked
    ensures r.firstCard == None && r.secondCard == None
    ensures r.totalPairs == s.totalPairs && r.difficultyIndex == s.difficultyIndex
    ensures r == SetupNewGame(ThemesChosen(s, fetched), itemSwaps, deckSwaps)
    ensures r.cards == NewDeck(r.themes, r.currentThemeIndex, s.totalPairs, itemSwaps, deckSwaps)
  {
    SetupNewGame(ThemesChosen(s, fetched), itemSwaps, deckSwaps)
  }

  /** Everything that happens to the widget: the clicks, the two delayed callbacks and the theme load. */
  datatype Event =
    | Click(card: nat)
    | Play
    | Restart(itemSwaps: seq<nat>, deckSwaps: seq<nat>)
    | DifficultyButton(direction: int, itemSwaps: seq<nat>, deckSwaps: seq<nat>)
    | ThemeButton(direction: int, itemSwaps: seq<nat>, deckSwaps: seq<nat>)
    | ThemesLoaded(fetched: Option<seq<Theme>>, itemSwaps: seq<nat>, deckSwaps: seq<nat>)
    | MatchDelayElapsed
    | MismatchDelayElapsed

  /** The draws fit the deck the event deals. */
  predicate Possible(s: Session, e: Event)
    requires Valid(s)
  {
    match e
    case Restart(a, d) => DeckInputs(s, a, d)
    case DifficultyButton(dir, a, d) => DeckInputs(DifficultyChosen(s, dir), a, d)
    case ThemeButton(dir, a, d) => s.themes != [] ==> DeckInputs(ThemeChosen(s, dir), a, d)
    case ThemesLoaded(f, a, d) => DeckInputs(ThemesChosen(s, f), a, d)
    case _ => true
  }

  /** The events that start a new game and so zero the counters. */
  predicate Resets(s: Session, e: Event) {
    || e.Restart? || e.DifficultyButton? || e.ThemesLoaded?
    || (e.ThemeButton? && s.themes != [])
  }

  /** One event applied to the state. */
  function Apply(s: Session, e: Event): (r: Session)
    requires Valid(s) && Possible(s, e)
    ensures Valid(r)
    ensures !Resets(s, e) ==> s.matchedPairs <= r.matchedPairs
    ensures Resets(s, e) ==> r.matchedPairs == 0 && r.attempts == 0
  {
    match e
    case Click(i) => FlipCardValid(s, i); FlipCard(s, i)
    case Play => StartGame(s)
    case Restart(a, d) => RestartGame(s, a, d)
    case DifficultyButton(dir, a, d) => ChangeDifficulty(s, dir, a, d)
    case ThemeButton(dir, a, d) => ChangeTheme(s, dir, a, d)
    case ThemesLoaded(f, a, d) => LoadThemes(s, f, a, d)
    case MatchDelayElapsed => MatchTimeout(s)
    case MismatchDelayElapsed => MismatchTimeout(s)
  }

  /** Every event of the trace is possible in the state it meets. */
  predicate PossibleRun(s: Session, events: seq<Event>)
    requires Valid(s)
    decreases |events|
  {
    events == [] || (Possible(s, events[0]) && PossibleRun(Apply(s, events[0]), events[1..]))
  }

  /** The state after a trace of events. */
  function Run(s: Session, events: seq<Event>): (r: Session)
    requires Valid(s) && PossibleRun(s, events)
    ensures Valid(r)
    decreases |events|
  {
    if events == [] then s else Run(Apply(s, events[0]), events[1..])
  }

  /** The mismatch callback does not fire while exactly one card is selected. */
  predicate NoHalfClearing(s: Session, e: Event) {
    e.MismatchDelayElapsed? ==> (s.firstCard.Some? ==> s.secondCard.Some?)
  }

  predicate NoHalfClearingRun(s: Session, events: seq<Event>)
    requires Valid(s) && PossibleRun(s, events)
    decreases |events|
  {
    events == [] || (NoHalfClearing(s, events[0]) && NoHalfClearingRun(Apply(s, events[0]), events[1..]))
  }

  /** Every event but a half-clearing mismatch callback keeps the pairing invariant. */
  lemma ApplyPaired(s: Session, e: Event)
    requires Paired(s) && Possible(s, e) && NoHalfClearing(s, e)
    ensures Paired(Apply(s, e))
  {
    match e
    case Click(i) => FlipCardPaired(s, i);
    case MismatchDelayElapsed => MismatchTimeoutPaired(s);
    case _ =>
  }

  /**
   * Along any trace without a half-clearing mismatch callback the found pairs
   * stay counted in matched cards, so there are never more than half the deck.
   */
  lemma {:induction false} RunPaired(s: Session, events: seq<Event>)
    requires Paired(s) && PossibleRun(s, events) && NoHalfClearingRun(s, events)
    ensures Paired(Run(s, events))
    ensures 2 * Run(s, events).matchedPairs <= |Run(s, events).cards|
    ensures Run(s, events).matchedPairs <= Run(s, events).totalPairs
    decreases |events|
  {
    if events != [] {
      ApplyPaired(s, events[0]);
      RunPaired(Apply(s, events[0]), events[1..]);
    }
  }

  predicate NoResetRun(s: Session, events: seq<Event>)
    requires Valid(s) && PossibleRun(s, events)
    decreases |events|
  {
    events == [] || (!Resets(s, events[0]) && NoResetRun(Apply(s, events[0]), events[1..]))
  }

  /** Between two new games the found-pairs counter only grows. */
  lemma {:induction false} RunMonotone(s: Session, events: seq<Event>)
    requires Valid(s) && PossibleRun(s, events) && NoResetRun(s, events)
    ensures s.matchedPairs <= Run(s, events).matchedPairs
    decreases |events|
  {
    if events != [] {
      RunMonotone(Apply(s, events[0]), events[1..]);
    }
  }

  /**
   * A deck with fewer pairs than totalPairs (a theme with fewer items than the
   * level asks for) never lets the counter reach totalPairs, so the match
   * callback never ends such a game.
   */
  lemma ShortDeckNeverEnds(s: Session)
    requires Paired(s) && 2 * s.totalPairs > |s.cards|
    ensures s.matchedPairs != s.totalPairs
    ensures MatchTimeout(s).isGameStarted == s.isGameStarted
  {
  }

  /** When the counter reaches half a deck, every card is matched. */
  lemma AllPairsFoundMeansAllMatched(s: Session)
    requires Paired(s) && 2 * s.matchedPairs == |s.cards|
    ensures forall k | 0 <= k < |s.cards| :: s.cards[k].isMatched
  {
    MatchedCountFull(s.cards);
  }
}
