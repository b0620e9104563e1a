# MemoryGame engine in Dafny

A model of the game engine inside `appMemoryGame`, the browser "memory" widget.
It covers how a board of face-down cards is built, how a click on a card is
handled, and how a pair is found or missed. The widget keeps one set of
closure variables:
- the theme list and the current theme index;
- the pair count and the difficulty level;
- the cards;
- the found pairs and the failed attempts;
- the first and second selected cards;
- the board lock and the started flag.

Its event handlers update these variables in place.

The project has these modules:

- `Cards`: the card record, the theme record, the three built-in themes and
  the fallback letters A–J, and `MatchedCount`, the number of matched cards.
- `Shuffle`: the in-place Fisher–Yates loop of `shuffleArray`. It is specified
  by a function on sequences and proved to be a permutation.
- `Deck`: `getCardItemsArray` (shuffle the theme's symbols, keep a prefix) and
  `showCards` (double the symbols, shuffle, make fresh cards). It proves the
  shape of every new deck.
- `Selectors`: the difficulty level and the theme index. Both step with
  wrap-around, and both are reset from a stored value.
- `Display`: the Russian plural of "пара", and the hours/minutes/seconds
  split of the clock.
- `Engine`: the variables as one `Session` value. Each handler is a function
  from the old session to the new one. Its lemmas cover invariants,
  idempotence, traces of events, and the misbehaviour of a stale timer
  callback.
- `Game`: the class `MemoryGame`. The variables are its fields and every
  handler is a method that updates them. Each method is proved to produce
  exactly the session the matching `Engine` function gives, so the `Engine`
  lemmas hold for the object.

Randomness is a parameter. Each `Math.random()` draw of the shuffle loop is a
caller-supplied swap partner `js[i] <= i`. "For all draws" therefore means
"for every possible run of the random generator". The fetched theme file is
also a parameter: `Some(themes)` when it loaded, `None` when no file was
configured or the fetch failed. The two delayed callbacks of `compareCards`
are separate event handlers (`MatchTimeout`, `MismatchTimeout`). Any number
of other events may happen before they run.

### Behaviour of the code worth knowing

- **A saved theme index does not survive a reload.** `changeTheme` saves the
  theme index (app.js:383), and `loadGameState` reads it back (app.js:168-169).
  But `showGameField` then calls `initThemeIndex` while the theme list is
  still empty (app.js:325), so a numeric stored index is reset to 0 before
  the themes load. `Engine.Initial` states this. A saved difficulty does
  survive (app.js:167, 349-352).
- **The timer callbacks are not tied to the game that scheduled them.** The
  two `setTimeout` callbacks of `compareCards` (app.js:487-491, 496-502) read
  the selections when they run, and nothing checks that the game is still the
  same one. Suppose a mismatch callback is still pending after a restart, and
  the player has picked one card by the time it runs. The callback turns that
  card face down, then throws on the missing second card, so the card stays
  selected. A second click on it matches it with itself and counts a pair for
  one card. `Engine.HalfSelectionAfterRestart` shows this state is reachable,
  and `Engine.StaleMismatchTimeoutMatchesCardWithItself` proves the effect.
- **A short theme cannot be finished by honest play.** The pair count is not
  clamped to the size of a theme (app.js:404-414). A fetched theme with fewer
  symbols than the level asks for gives a smaller deck. Then, as long as no
  mismatch callback fires on a half selection, the found-pairs counter never
  reaches the pair count and the match callback never ends the game
  (`Engine.ShortDeckNeverEnds`, which assumes the pairing invariant that
  `Engine.RunPaired` keeps under that condition). Self-matches from stale
  callbacks can still push the counter up to the pair count.

## Model

| member | source | states |
|---|---|---|
| Cards.BuiltInSymbolsDistinct | app.js:35-48 | each built-in theme and the fallback list has ten pairwise different symbols |
| Cards.MatchedCountUpdate | app.js:512-519 | replacing one card changes the matched count by exactly the change of that card's matched flag |
| Cards.MatchedCountFull | app.js:487-491 | the matched count equals the number of cards exactly when every card is matched |
| Shuffle.ShuffleArray | app.js:548-553 | the in-place loop leaves the array equal to the shuffle function of its old contents and with the same multiset of elements |
| Shuffle.ShuffledIsPermutation | app.js:548-553 | the shuffle keeps the length, the multiset of elements and the membership of every element |
| Shuffle.ShuffleFromDistinct | app.js:548-553 | shuffling a sequence without repetitions gives one without repetitions |
| Shuffle.ShuffleFromIdentity | app.js:548-553 | when every draw picks the position itself the shuffle changes nothing |
| Shuffle.ShuffleFromAt | app.js:548-553 | after the loop, each position i >= 1 holds the element that step i swapped into it; later steps never touch it |
| Deck.GetCardItems | app.js:404-414 | the array code returns the theme's items (or the fallback letters when the theme index has no theme), shuffled, cut to min(totalPairs, pool size) |
| Deck.ChosenItemsFromPool | app.js:404-414 | the chosen symbols number min(totalPairs, pool size), are a sub-multiset of the pool, and are distinct when the pool is |
| Deck.ShuffledPairs | app.js:335-338 | the full set is the chosen symbols twice over, shuffled in place, in a fresh array |
| Deck.NewDeckShape | app.js:332-344 | a new deck has 2k cards for k = min(totalPairs, pool size), all face down and unmatched, and its symbols are the chosen symbols twice over |
| Deck.NewDeckPairs | app.js:332-344 | with a pool of distinct symbols every chosen symbol lies on exactly two cards and no other symbol lies on any |
| Deck.BuiltInDeck | app.js:404-414 | with a built-in theme or the fallback letters and at most ten pairs the deck has exactly 2·totalPairs cards, two per chosen symbol |
| Selectors.IndexOf | app.js:349-352 | -1 exactly when the value is absent; otherwise the first position holding it |
| Selectors.InitDifficultyIndex | app.js:349-352 | the level is in range, holds the pair count when that count is listed, and is 0 otherwise |
| Selectors.Cycle | app.js:359-365 | a step lands in range and equals index + direction when that is already in range |
| Selectors.CycleInverse | app.js:359-365 | a step forward and a step back return to the same index, in either order |
| Selectors.CycleTimesIsModular | app.js:359-365 | n single steps forward, or back, reach (index ± n) mod count |
| Selectors.DifficultyWraps | app.js:359-365 | back from 2 pairs gives 10, forward from 10 gives 2, five steps forward return to the start |
| Selectors.InitThemeIndex | app.js:367-372 | an index inside the list is kept, one outside it becomes 0 |
| Selectors.InitThemeIndexIdempotent | app.js:367-372 | clamping twice against the same list is clamping once |
| Selectors.ThemeStep | app.js:377-381 | with no theme names the index is unchanged, otherwise the step lands in range |
| Display.GetPairWord | app.js:89-95 | the word is always one of the three forms "пар", "пара", "пары"; which one is fixed by Display.GetPairWordFollowsDigits |
| Display.GetPairWordFollowsDigits | app.js:89-95 | the word is "пар" for a tens digit of 1, else "пара" for a last digit 1, "пары" for 2 to 4, "пар" otherwise |
| Display.DifficultyWords | app.js:353-358 | the five levels read "2 пары", "4 пары", "6 пар", "8 пар", "10 пар" |
| Display.SplitTime | app.js:527-536 | h·3600 + m·60 + s equals the elapsed seconds, with m and s below 60 |
| Display.SplitTimeOfParts | app.js:527-536 | the split is unique: splitting a composed time gives its hours, minutes and seconds back |
| Engine.Initial | app.js:165-170 | the pair count is the saved one, else the parameter with 0 meaning 2; the level holds that count when it is listed and is 0 otherwise; the saved theme index is lost, leaving index 0; the board is empty and locked, both counters are 0 and nothing is selected |
| Engine.StopGame | app.js:426-433 | only the two flags change: not started, board locked; both invariants are kept |
| Engine.StartGame | app.js:419-425 | a running game is left alone; otherwise it starts unlocked; nothing else changes |
| Engine.EndGame | app.js:539-542 | the game stops and the board locks; nothing else changes |
| Engine.SetupNewGame | app.js:391-399 | stopped and locked, both counters 0, no selection, the new deck of the current theme and pair count, settings kept, pairing invariant established |
| Engine.RestartGame | app.js:434-436 | a restart yields a stopped game with zero counters and no selection, dealt the new deck of the current theme and pair count (2k cards, all face down and unmatched), keeps the themes, theme indices, pair count and level, and satisfies the pairing invariant |
| Engine.RestartTwice | app.js:434-436 | restarting twice is the same as restarting once with the second draws: the first restart leaves no trace |
| Engine.Reveal | app.js:470-473 | only the clicked card changes, it turns face up, and the matched count is unchanged |
| Engine.FlipBack | app.js:505-511 | only the given card changes, it turns face down, and the matched count is unchanged |
| Engine.HighlightMatchedCards | app.js:512-519 | both cards become matched with symbol and face kept, nothing else changes, and the matched count grows by 2 for two distinct unmatched cards, by 1 when both are the same unmatched card |
| Engine.CompareCards | app.js:481-504 | a missing selection changes nothing; equal symbols turn the board into HighlightMatchedCards of the two cards and count a pair; different symbols lock the board and count an attempt; no other field changes |
| Engine.FlipCard | app.js:466-480 | the click is ignored exactly when the board is locked, the game is not running, the card does not exist, or it is face up or matched; otherwise the card turns face up and becomes the first selection, or the second one, after which the result is exactly CompareCards of the revealed state, or is only shown when both are taken; in the first and last case nothing but that card and the selection changes |
| Engine.FlipCardValid | app.js:466-480 | a click keeps the engine invariant: settings and selections in range, counter within the matched cards, board within two cards per pair |
| Engine.FlipCardPaired | app.js:466-504 | a click keeps the pairing invariant: every counted pair marks two different previously unmatched cards |
| Engine.MatchTimeout | app.js:487-491 | the selections are cleared; the game stops exactly when the counter equals the pair count; nothing but the selections and the two flags changes; both invariants are kept |
| Engine.MismatchTimeout | app.js:496-502 | with two selections both cards turn face down, the selections clear and the board unlocks; with no first selection nothing changes; with one selection only that card turns face down and the callback throws; nothing but the two cards, the selections and the lock changes |
| Engine.MismatchTimeoutPaired | app.js:496-502 | unless exactly one card is selected the mismatch callback keeps the pairing invariant |
| Engine.StaleMismatchTimeoutMatchesCardWithItself | app.js:466-502 | with one card selected the callback breaks the pairing invariant, and clicking that card again matches it with itself: one pair counted, one card matched |
| Engine.HalfSelectionAfterRestart | app.js:434-480 | restart, play and one click give a running, unlocked game with exactly one selection, which is the state in which a pending mismatch callback misbehaves |
| Engine.SetDifficulty | app.js:543-547 | the new pair count and a new game: stopped and locked, zero counters, no selection, the new deck for that count; the theme and the level itself are not touched |
| Engine.DifficultyChosen | app.js:359-364 | the level is the wrap-around step of the old one, the pair count is that level's count, and nothing else changes |
| Engine.ChangeDifficulty | app.js:359-365 | the level is the wrapped step of the old one and the pair count is that level's; the result is exactly the new game for that level: stopped and locked, zero counters, no selection, the new deck for that count |
| Engine.ChangeTheme | app.js:377-386 | without theme names nothing changes; otherwise both theme indices become the wrapped step, in range, and a new game starts |
| Engine.LoadedThemes | app.js:121-160 | the built-in themes come first, followed by the fetched ones when the fetch succeeded |
| Engine.LoadThemes | app.js:121-160 | the loaded list is installed and the theme index is kept when it indexes the list and is in range in any case; the result is exactly the new game for that theme: stopped and locked, zero counters, no selection, the new deck, pair count and level kept |
| Engine.Apply | app.js:466-547 | every event keeps the range and counter invariant; an event that does not start a new game never lowers the found pairs; one that does zeroes both counters |
| Engine.RunPaired | app.js:466-504 | along any trace of events without a half-clearing mismatch callback the pairing invariant holds, the found pairs never exceed half the deck and never exceed the pair count |
| Engine.RunMonotone | app.js:481-491 | between two new games the found-pairs counter only grows |
| Engine.ShortDeckNeverEnds | app.js:487-491 | under the pairing invariant (kept while no mismatch callback fires on a half selection), when the pair count exceeds half the deck the counter never equals it and the match callback never stops the game |
| Engine.AllPairsFoundMeansAllMatched | app.js:487-491 | when the counter reaches half the deck every card is matched |
| Game.MemoryGame.constructor | app.js:594-597 | the fields are the initial session (the pair count from the saved setting or the parameter, its level, theme index 0 after the clamp against the empty list) and the storage holds the saved settings |
| Game.MemoryGame.InitDifficultyIndex | app.js:349-352 | the level field becomes the level of the current pair count |
| Game.MemoryGame.InitThemeIndex | app.js:367-372 | both theme index fields become the clamped current index |
| Game.MemoryGame.StartGame | app.js:419-425 | the fields become those of the StartGame transition, and the engine invariant holds afterwards |
| Game.MemoryGame.StopGame | app.js:426-433 | the fields become those of the StopGame transition |
| Game.MemoryGame.EndGame | app.js:539-542 | the fields become those of the EndGame transition |
| Game.MemoryGame.ShowCards | app.js:332-344 | the push loop leaves the board equal to the new deck of the current theme and pair count |
| Game.MemoryGame.SetupNewGame | app.js:391-399 | the fields become those of the SetupNewGame transition, and the engine invariant holds afterwards |
| Game.MemoryGame.RestartGame | app.js:434-436 | the fields become those of the RestartGame transition, and the engine invariant holds afterwards |
| Game.MemoryGame.FlipCard | app.js:466-480 | the fields become those of the FlipCard transition, and the engine invariant holds afterwards |
| Game.MemoryGame.CompareCards | app.js:481-504 | the fields become those of the CompareCards transition |
| Game.MemoryGame.FlipBack | app.js:505-511 | the board becomes FlipBack of the old board |
| Game.MemoryGame.HighlightMatchedCards | app.js:512-519 | the board becomes HighlightMatchedCards of the old board |
| Game.MemoryGame.MatchTimeout | app.js:487-491 | the fields become those of the MatchTimeout transition, and the engine invariant holds afterwards |
| Game.MemoryGame.MismatchTimeout | app.js:496-502 | the fields become those of the MismatchTimeout transition, and the flag reports exactly when flipBack would throw; the engine invariant holds afterwards |
| Game.MemoryGame.UnflipSelection | app.js:496-502 | the callback's steps on the fields: with no first selection nothing changes; with only a first one that card turns face down and the flag reports the throw; with both, both cards turn face down, the selections clear and the board unlocks |
| Game.MemoryGame.SetDifficulty | app.js:543-547 | the fields become those of the SetDifficulty transition and the stored difficulty is the new pair count, and the engine invariant holds afterwards |
| Game.MemoryGame.ChangeDifficulty | app.js:359-365 | the fields become those of the ChangeDifficulty transition and the stored difficulty is the chosen level's count, and the engine invariant holds afterwards |
| Game.MemoryGame.ChangeTheme | app.js:377-386 | the fields become those of the ChangeTheme transition and the stored theme index is the new index unless the list is empty, and the engine invariant holds afterwards |
| Game.MemoryGame.LoadThemes | app.js:121-160 | the fields become those of the LoadThemes transition, and the engine invariant holds afterwards |

## Left out

- Everything the DOM does is left out as presentation: the elements, the styles and colours, the card size, the panel text. So are `setCardSize`, `setGridLineWidth`, `setFieldAppearance`, `loadCustomStyles` and the developer-mode log.
- `Math.random` is replaced by caller-supplied swap partners, one per step of each shuffle loop.
- `Date.now` and the one-second interval timer are left out. The clock is modelled only as the split of an elapsed number of seconds (`Display.SplitTime`).
- `fetch` and JSON parsing are left out. The outcome of the theme load is a parameter, and `data.themes || []` is folded into it.
- The play button being disabled until the themes load is a DOM property and is not modelled. `Play` can occur at any time.
- The scheduling of the two `setTimeout` callbacks is not modelled. They are events that may happen at any later point, in any order with the other events.
- `MismatchTimeout`: the `TypeError` that `flipBack(null)` raises is modelled as an early stop of the callback. The state changes made before it are kept, and a flag reports it.
- Card identity: `cards.find` over element references is modelled as a position on the board. A click on a position that is not on the board is the `!cardObj` case.
- `Engine.Initial`: `localStorage` is two plain fields of the class, and the pair count is a natural number. The string-to-number coercions `+savedDiff` and `+savedThemeIndex` (which can produce NaN, fractions or negatives) and the falsy empty string are left out. A stored theme index that is not a number becomes NaN, which fails both comparisons of `initThemeIndex` and is kept; the model covers numeric stored values only.
- A theme object with no `items` field falls back to the letters A–J in the code. Every modelled theme has a list of items, possibly empty.
- The `if (!fieldDiv) return` guard of `showCards` is not modelled. `fieldDiv` is created in `showGameField`, which runs before any handler that deals cards.
- `updateResultsPanel` and `trackMatchedPairs` only write text to the panel and are left out.
- Console output is left out.
