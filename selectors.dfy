/**
 * The two cyclic selectors of the control panel: the difficulty level, an
 * index into the fixed list of pair counts, and the theme index, an index into
 * the list of theme names. Both step by a direction and wrap at either end.
 */
module Selectors {

  /** The selectable pair counts, in panel order. */
  const Difficulties: seq<nat> := [2, 4, 6, 8, 10]

  /** Array.prototype.indexOf: the first position of `x`, or -1. */
  function IndexOf(s: seq<nat>, x: int): (r: int)
    ensures -1 <= r < |s|
    ensures r == -1 <==> x !in s
    ensures 0 <= r ==> s[r] == x && x !in s[..r]
  {
    if s == [] then -1
    else if s[0] == x then 0
    else
      var r := IndexOf(s[1..], x);
      if r == -1 then -1
      else
        assert s[..r + 1] == [s[0]] + s[1..][..r];
        r + 1
  }

  /** initDifficultyIndex: the level whose pair count is `totalPairs`, or level 0. */
  function InitDifficultyIndex(totalPairs: int): (level: nat)
    ensures level < |Difficulties|
    ensures totalPairs in Difficulties ==> Difficulties[level] == totalPairs
    ensures totalPairs !in Difficulties ==> level == 0
  {
    var idx := IndexOf(Difficulties, totalPairs);
    if idx >= 0 then idx else 0
  }

  /**
   * One step of changeDifficulty or changeTheme: add the direction, then jump
   * to the last index when below 0 and to 0 when past the end.
   */
  function Cycle(index: int, direction: int, count: nat): (r: int)
    requires count > 0
    ensures 0 <= r < count
    ensures 0 <= index + direction < count ==> r == index + direction
  {
    var moved := index + direction;
    var low := if moved < 0 then count - 1 else moved;
    if low >= count then 0 else low
  }

  /** Stepping forward and then back (or back and then forward) returns to the same index. */
  lemma CycleInverse(index: int, count: nat)
    requires 0 <= index < count
    ensures Cycle(Cycle(index, 1, count), -1, count) == index
    ensures Cycle(Cycle(index, -1, count), 1, count) == index
  {
  }

  /** The index after `n` steps in `direction`. */
  function CycleTimes(index: int, direction: int, count: nat, n: nat): (r: int)
    requires count > 0 && 0 <= index < count
    ensures 0 <= r < count
  {
    if n == 0 then index else Cycle(CycleTimes(index, direction, count, n - 1), direction, count)
  }

  /** Division with remainder has only one answer. */
  lemma ModUnique(a: int, count: nat, q: int, r: int)
    requires count > 0 && a == q * count + r && 0 <= r < count
    ensures a % count == r
  {
    var x, y := a / count, a % count;
    var d := q - x;
    assert d * count == y - r by {
      assert q * count - x * count == (q - x) * count;
    }
  }

  /** Moving by one step changes the remainder by one step, wrapping at the ends. */
  lemma ModStep(a: int, count: nat)
    requires count > 0
    ensures (a + 1) % count == if a % count + 1 == count then 0 else a % count + 1
    ensures (a - 1) % count == if a % count == 0 then count - 1 else a % count - 1
  {
    var q, r := a / count, a % count;
    assert a == q * count + r;
    if r + 1 == count {
      ModUnique(a + 1, count, q + 1, 0);
    } else {
      ModUnique(a + 1, count, q, r + 1);
    }
    if r == 0 {
      ModUnique(a - 1, count, q - 1, count - 1);
    } else {
      ModUnique(a - 1, count, q, r - 1);
    }
  }

  /**
   * Single steps visit the indices in cyclic order: after `n` steps forward the
   * index is `(index + n) mod count`, after `n` steps back `(index - n) mod count`.
   */
  lemma {:induction false} CycleTimesIsModular(index: int, count: nat, n: nat)
    requires count > 0 && 0 <= index < count
    ensures CycleTimes(index, 1, count, n) == (index + n) % count
    ensures CycleTimes(index, -1, count, n) == (index - n) % count
  {
    if n == 0 {
      ModUnique(index, count, 0, index);
    } else {
      CycleTimesIsModular(index, count, n - 1);
      ModStep(index + n - 1, count);
      ModStep(index - (n - 1), count);
    }
  }

  /** The difficulty buttons wrap: back from the first level gives the last, forward from the last gives the first. */
  lemma DifficultyWraps()
    ensures Cycle(0, -1, |Difficulties|) == 4 && Difficulties[4] == 10
    ensures Cycle(4, 1, |Difficulties|) == 0 && Difficulties[0] == 2
    ensures forall level | 0 <= level < |Difficulties| :: CycleTimes(level, 1, |Difficulties|, |Difficulties|) == level
  {
    forall level | 0 <= level < |Difficulties|
      ensures CycleTimes(level, 1, |Difficulties|, |Difficulties|) == level
    {
      CycleTimesIsModular(level, |Difficulties|, |Difficulties|);
    }
  }

  /** initThemeIndex: keep `current` when it indexes the list, otherwise reset to 0. */
  function InitThemeIndex(current: int, count: nat): (r: nat)
    ensures count > 0 ==> r < count
    ensures 0 <= current < count ==> r == current
    ensures !(0 <= current < count) ==> r == 0
  {
    if current < 0 || current >= count then 0 else current
  }

  /** Clamping twice against the same list is clamping once. */
  lemma InitThemeIndexIdempotent(current: int, count: nat)
    ensures InitThemeIndex(InitThemeIndex(current, count), count) == InitThemeIndex(current, count)
  {
  }

  /** changeTheme's index step: nothing happens while the list is empty. */
  function ThemeStep(index: int, direction: int, count: nat): (r: int)
    ensures count == 0 ==> r == index
    ensures count > 0 ==> 0 <= r < count
  {
    if count == 0 then index else Cycle(index, direction, count)
  }
}
