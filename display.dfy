/** The two computations behind the panel's text: the word for "pair" and the clock. */
module Display {

  /**
   * getPairWord: the Russian form of "пара" after the number `num`
   * ("1 пара", "2 пары", "5 пар", "11 пар", "21 пара").
   */
  function GetPairWord(num: nat): (word: string)
    ensures word == "пар" || word == "пара" || word == "пары"
  {
    if 11 <= num % 100 <= 14 then "пар"
    else
      var lastDigit := num % 10;
      if lastDigit == 1 then "пара"
      else if 2 <= lastDigit <= 4 then "пары"
      else "пар"
  }

  /**
   * The plural rule stated on the decimal digits: a tens digit of 1 always takes
   * "пар"; otherwise the last digit 1 takes "пара", 2 to 4 take "пары", the rest "пар".
   */
  function PairWordByDigits(tens: nat, ones: nat): string {
    if tens == 1 then "пар"
    else if ones == 1 then "пара"
    else if ones == 2 || ones == 3 || ones == 4 then "пары"
    else "пар"
  }

  /** getPairWord follows the digit rule. */
  lemma GetPairWordFollowsDigits(num: nat)
    ensures GetPairWord(num) == PairWordByDigits(num / 10 % 10, num % 10)
  {
    var lastTwo := num % 100;
    assert num % 10 == lastTwo % 10 && num / 10 % 10 == lastTwo / 10 by {
      assert num == (num / 100) * 100 + lastTwo;
      assert num == (num / 100 * 10 + lastTwo / 10) * 10 + lastTwo % 10;
    }
  }

  /** The words the difficulty selector shows next to its five pair counts. */
  lemma DifficultyWords()
    ensures GetPairWord(2) == "пары" && GetPairWord(4) == "пары"
    ensures GetPairWord(6) == "пар" && GetPairWord(8) == "пар" && GetPairWord(10) == "пар"
  {
  }

  /** The hours, minutes and seconds updateResultsPanel shows for `elapsed` seconds. */
  function SplitTime(elapsed: nat): (hms: (nat, nat, nat))
    ensures hms.0 * 3600 + hms.1 * 60 + hms.2 == elapsed
    ensures hms.1 < 60 && hms.2 < 60
  {
    var h := elapsed / 3600;
    var m := elapsed % 3600 / 60;
    var s := elapsed % 60;
    assert elapsed % 3600 == m * 60 + elapsed % 3600 % 60;
    assert elapsed == h * 3600 + elapsed % 3600;
    assert elapsed % 60 == elapsed % 3600 % 60 by {
      assert elapsed == (h * 60 + m) * 60 + elapsed % 3600 % 60;
    }
    (h, m, s)
  }

  /** The split is the only one with minutes and seconds below 60: splitting a composed time gives its parts back. */
  lemma SplitTimeOfParts(h: nat, m: nat, s: nat)
    requires m < 60 && s < 60
    ensures SplitTime(h * 3600 + m * 60 + s) == (h, m, s)
  {
    var e := h * 3600 + m * 60 + s;
    var r := SplitTime(e);
    assert r.0 == h;
    assert r.1 * 60 + r.2 == m * 60 + s;
  }
}
