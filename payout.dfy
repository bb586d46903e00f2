/**
 * The result and winnings of a finished spin: the ordered red / black / number test of showResult
 * and the status message it writes.
 */
module Payout {
  import opened Wrappers
  import opened Wheel
  import opened NumberText

  /** What a bet earns: an even-money win, the 36-times jackpot of a number bet, or nothing. */
  datatype Outcome = Win(amount: Option<int>) | Jackpot(amount: Option<int>) | Loss

  /** A parsed stake multiplied by k; a NaN stake stays NaN. */
  function Times(bet: Option<int>, k: int): Option<int>
  {
    match bet
    case None => None
    case Some(b) => Some(b * k)
  }

  /**
   * The branch of showResult that applies to winning number n of colour color, for the parsed stake
   * bet, the bet type betType and the parsed bet number betNumber. The tests are tried in order; a
   * NaN bet number (None) equals no winning number.
   */
  function Decide(n: int, color: Color, bet: Option<int>, betType: string, betNumber: Option<int>): (o: Outcome)
    ensures o.Win? <==> (betType == "red" && color == Red) || (betType == "black" && color == Black)
    ensures o.Jackpot? <==> betType == "number" && betNumber == Some(n)
    ensures o.Win? ==> o.amount == Times(bet, 2)
    ensures o.Jackpot? ==> o.amount == Times(bet, 36)
  {
    if betType == "red" && color == Red then Win(Times(bet, 2))
    else if betType == "black" && color == Black then Win(Times(bet, 2))
    else if betType == "number" && betNumber == Some(n) then Jackpot(Times(bet, 36))
    else Loss
  }

  /** The fixed words of the message. */
  const Label: string := "Resultat: "
  const WinWords: string := "Du vant "
  const JackpotWords: string := "Jackpot! Du vant "
  const Currency: string := " kr!"
  const LossText: string := "Du tapte."

  /** The opening of every result message: the label, the winning number and its colour. */
  function Heading(n: int, color: Color): (h: string)
    ensures |h| > |Label| && h[..|Label|] == Label
  {
    Label + IntToString(n) + " (" + ColorName(color) + "). "
  }

  /**
   * The rest of the message, saying what the bet won: the loss text exactly for a loss, and a
   * leading 'J' exactly for a jackpot.
   */
  function OutcomeText(o: Outcome): (t: string)
    ensures o.Loss? <==> t == LossText
    ensures t != [] && (t[0] == 'J' <==> o.Jackpot?)
  {
    match o
    case Win(a) => WinWords + NumberToString(a) + Currency
    case Jackpot(a) => JackpotWords + NumberToString(a) + Currency
    case Loss => LossText
  }

  /**
   * showResult: parse the stake and the bet number from their input texts, decide the outcome and
   * compose the status message.
   */
  function ShowResult(n: int, color: Color, betText: string, betType: string, betNumberText: string): (msg: string)
    ensures |msg| > |Label| && msg[..|Label|] == Label
  {
    var o := Decide(n, color, ParseInt(betText), betType, ParseInt(betNumberText));
    Heading(n, color) + OutcomeText(o)
  }

  /** parseInt reads an integer back from its text wherever it stands, if no digit follows it. */
  lemma NumberAfter(p: string, x: int, rest: string)
    requires rest == [] || !IsDigit(rest[0])
    ensures ParseInt((p + IntToString(x) + rest)[|p|..]) == Some(x)
  {
    assert (p + IntToString(x) + rest)[|p|..] == "" + IntToString(x) + rest;
    ParseIntToString("", x, rest);
  }

  /** The amount printed in front of the currency reads back as that amount, NaN included. */
  lemma AmountAfter(p: string, a: Option<int>)
    ensures ParseInt((p + NumberToString(a) + Currency)[|p|..]) == a
  {
    match a
    case None =>
      var s := (p + NumberToString(a) + Currency)[|p|..];
      assert s[0] == 'N';
      ParseIntOfWord(s);
    case Some(x) =>
      NumberAfter(p, x, Currency);
  }

  /** parseInt reads the amount of a win or a jackpot back from the text after the fixed words. */
  lemma OutcomeTextReadsBack(o: Outcome)
    ensures o.Win? ==> |OutcomeText(o)| > |WinWords| && ParseInt(OutcomeText(o)[|WinWords|..]) == o.amount
    ensures o.Jackpot? ==> |OutcomeText(o)| > |JackpotWords|
                           && ParseInt(OutcomeText(o)[|JackpotWords|..]) == o.amount
  {
    match o
    case Win(a) => AmountAfter(WinWords, a);
    case Jackpot(a) => AmountAfter(JackpotWords, a);
    case Loss =>
  }

  /** parseInt reads the winning number back from the message, right after the label. */
  lemma ShowResultNamesNumber(n: int, color: Color, betText: string, betType: string, betNumberText: string)
    ensures ParseInt(ShowResult(n, color, betText, betType, betNumberText)[|Label|..]) == Some(n)
  {
    HeadingNamesNumber(n, color, OutcomeText(Decide(n, color, ParseInt(betText), betType, ParseInt(betNumberText))));
  }

  lemma HeadingNamesNumber(n: int, color: Color, rest: string)
    ensures ParseInt((Heading(n, color) + rest)[|Label|..]) == Some(n)
  {
    var tail := " (" + ColorName(color) + "). ";
    assert Heading(n, color) == Label + IntToString(n) + tail;
    assert (tail + rest)[0] == ' ';
    Regroup(Label, IntToString(n), tail, rest);
    NumberAfter(Label, n, tail + rest);
  }

  lemma Regroup(a: string, b: string, c: string, d: string)
    ensures (a + b + c) + d == a + b + (c + d)
  {
  }

  /** The text after the heading tells outcomes apart, amounts included. */
  lemma OutcomeTextInjective(o1: Outcome, o2: Outcome)
    requires OutcomeText(o1) == OutcomeText(o2)
    ensures o1 == o2
  {
    OutcomeTextReadsBack(o1);
    OutcomeTextReadsBack(o2);
  }

  /** Two messages about the same spin are equal only when the bets had the same outcome. */
  lemma MessageDeterminesOutcome(n: int, color: Color, o1: Outcome, o2: Outcome)
    requires Heading(n, color) + OutcomeText(o1) == Heading(n, color) + OutcomeText(o2)
    ensures o1 == o2
  {
    var h := Heading(n, color);
    assert OutcomeText(o1) == (h + OutcomeText(o1))[|h|..];
    assert OutcomeText(o2) == (h + OutcomeText(o2))[|h|..];
    OutcomeTextInjective(o1, o2);
  }

  /** The heading names the colour: its initial stands right after the number and " (". */
  lemma HeadingNamesColor(n: int, color: Color, rest: string)
    ensures |Heading(n, color) + rest| > |Label| + |IntToString(n)| + 2
    ensures (Heading(n, color) + rest)[|Label| + |IntToString(n)| + 2] == ColorName(color)[0]
  {
    var p := Label + IntToString(n) + " (";
    var name := ColorName(color);
    assert Heading(n, color) + rest == p + (name + "). " + rest);
    assert (name + "). " + rest)[0] == name[0];
  }

  /** The three colour names start with different letters. */
  lemma ColorInitialsDiffer(c1: Color, c2: Color)
    requires ColorName(c1)[0] == ColorName(c2)[0]
    ensures c1 == c2
  {
    assert "green"[0] == 'g' && "red"[0] == 'r' && "black"[0] == 'b';
  }

  /**
   * Two result messages are equal only when they name the same number and the same colour and the
   * bets, read from their input texts, have the same outcome.
   */
  lemma ShowResultDeterminesOutcome(n1: int, c1: Color, t1: string, k1: string, u1: string,
                                    n2: int, c2: Color, t2: string, k2: string, u2: string)
    requires ShowResult(n1, c1, t1, k1, u1) == ShowResult(n2, c2, t2, k2, u2)
    ensures n1 == n2 && c1 == c2
    ensures Decide(n1, c1, ParseInt(t1), k1, ParseInt(u1)) == Decide(n2, c2, ParseInt(t2), k2, ParseInt(u2))
  {
    var o1 := Decide(n1, c1, ParseInt(t1), k1, ParseInt(u1));
    var o2 := Decide(n2, c2, ParseInt(t2), k2, ParseInt(u2));
    ShowResultNamesNumber(n1, c1, t1, k1, u1);
    ShowResultNamesNumber(n2, c2, t2, k2, u2);
    HeadingNamesColor(n1, c1, OutcomeText(o1));
    HeadingNamesColor(n2, c2, OutcomeText(o2));
    ColorInitialsDiffer(c1, c2);
    MessageDeterminesOutcome(n1, c1, o1, o2);
  }

  /** A number bet on a number outside the wheel, or on text that is not a number, always loses. */
  lemma NumberBetOffTheWheelLoses(n: int, bet: Option<int>, betNumber: Option<int>)
    requires 0 <= n <= 36
    requires betNumber == None || betNumber.value < 0 || betNumber.value > 36
    ensures Decide(n, NumberColor(n), bet, "number", betNumber) == Loss
  {
  }

  /** A bet on red or black loses when the ball lands on the green zero. */
  lemma ColorBetLosesOnZero(bet: Option<int>, betType: string, betNumber: Option<int>)
    requires betType == "red" || betType == "black"
    ensures Decide(0, NumberColor(0), bet, betType, betNumber) == Loss
  {
  }

  /** The stake is not checked: any integer, negative or zero, is multiplied as it is. */
  lemma PayoutIsExactMultiple(n: int, color: Color, b: int, betType: string, betNumber: Option<int>)
    ensures Decide(n, color, Some(b), betType, betNumber) in {Win(Some(2 * b)), Jackpot(Some(36 * b)), Loss}
    ensures Decide(n, color, None, betType, betNumber) in {Win(None), Jackpot(None), Loss}
  {
  }

  /** A stake of 10 on red: 32, a red number, comes up and the bet wins 20. */
  lemma RedBetOnRedWins(betNumber: Option<int>)
    ensures Decide(32, NumberColor(32), Some(10), "red", betNumber) == Win(Some(20))
  {
  }

  /** A stake of 10 on black: 32 comes up and the bet loses. */
  lemma BlackBetOnRedLoses(betNumber: Option<int>)
    ensures Decide(32, NumberColor(32), Some(10), "black", betNumber) == Loss
  {
  }

  /** A stake of 5 on number 0: 0 comes up and the bet wins 180. */
  lemma NumberBetOnZeroWins()
    ensures Decide(0, NumberColor(0), Some(5), "number", Some(0)) == Jackpot(Some(180))
  {
  }

  /** The whole message for 10 typed into the stake field on red when 32 comes up. */
  lemma RedBetOnRedMessage(betNumberText: string)
    ensures ShowResult(32, NumberColor(32), IntToString(10), "red", betNumberText)
            == Heading(32, Red) + OutcomeText(Win(Some(20)))
  {
    var betNumber := ParseInt(betNumberText);
    assert ParseInt(IntToString(10)) == Some(10) by { ParseIntOfText(10); }
    assert Decide(32, NumberColor(32), Some(10), "red", betNumber) == Win(Some(20)) by {
      RedBetOnRedWins(betNumber);
    }
    assert NumberColor(32) == Red;
  }

  /** The whole message for 10 typed into the stake field on black when 32 comes up. */
  lemma BlackBetOnRedMessage(betNumberText: string)
    ensures ShowResult(32, NumberColor(32), IntToString(10), "black", betNumberText) == Heading(32, Red) + LossText
  {
    var betNumber := ParseInt(betNumberText);
    assert ParseInt(IntToString(10)) == Some(10) by { ParseIntOfText(10); }
    assert Decide(32, NumberColor(32), Some(10), "black", betNumber) == Loss by {
      BlackBetOnRedLoses(betNumber);
    }
    assert NumberColor(32) == Red;
  }

  /** The whole message for 5 typed into the stake field on number 0 when 0 comes up. */
  lemma NumberBetOnZeroMessage()
    ensures ShowResult(0, NumberColor(0), IntToString(5), "number", IntToString(0))
            == Heading(0, Green) + OutcomeText(Jackpot(Some(180)))
  {
    assert ParseInt(IntToString(5)) == Some(5) by { ParseIntOfText(5); }
    assert ParseInt(IntToString(0)) == Some(0) by { ParseIntOfText(0); }
    assert Decide(0, NumberColor(0), Some(5), "number", Some(0)) == Jackpot(Some(180)) by {
      NumberBetOnZeroWins();
    }
    assert NumberColor(0) == Green;
  }

  /** A stake that is not a number wins NaN on a colour bet that comes up. */
  lemma NonNumericStakeWinsNaN(betNumber: Option<int>)
    ensures Decide(32, NumberColor(32), None, "red", betNumber) == Win(None)
    ensures OutcomeText(Win(None)) == WinWords + "NaN" + Currency
  {
  }
}
