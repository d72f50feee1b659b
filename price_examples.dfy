/** Replies worked through get_price, one lemma each. */
module PriceExamples {
  import opened Wrappers
  import opened PriceParser

  lemma SearchPlainDecimal(reply: string)
    requires reply == "3.14"
    ensures Search(reply, 0) == Some(Match(0, 4, Token(NoSign, "3", "14")))
  {
    DigitRunEndIs(reply, 0, 1);
    DigitRunEndIs(reply, 2, 4);
    assert reply[0..1] == "3" && reply[2..4] == "14";
  }

  lemma ValuePlainDecimal()
    ensures Value(Token(NoSign, "3", "14")) == 3.14
  {
    assert "14"[..1] == "1" && "3"[..0] == "" && "1"[..0] == "";
    assert Pow10(2) == 100;
  }

  lemma PlainDecimal(reply: string)
    requires reply == "3.14"
    ensures GetPrice(reply) == 3.14
  {
    SearchPlainDecimal(reply);
    ValuePlainDecimal();
    PriceOfPlainReply(reply, Match(0, 4, Token(NoSign, "3", "14")));
  }

  lemma LeadingPoint()
    ensures GetPrice(".5") == 0.5
  {
  }

  /** The decimal alternative needs a digit after the point, so "12." reads as the integer 12. */
  lemma TrailingPoint()
    ensures GetPrice("12.") == 12.0
  {
    assert "12"[..1] == "1";
  }

  lemma SearchNegativeDecimal(reply: string)
    requires reply == "-5.5"
    ensures Search(reply, 0) == Some(Match(0, 4, Token(Minus, "5", "5")))
  {
    assert BodyStart(reply, 0) == 1;
    DigitRunEndIs(reply, 1, 2);
    DigitRunEndIs(reply, 3, 4);
    assert reply[1..2] == "5" && reply[3..4] == "5";
  }

  /** A sign is kept with a decimal, so the price read can be negative. */
  lemma NegativeDecimal(reply: string)
    requires reply == "-5.5"
    ensures GetPrice(reply) == -5.5
  {
    SearchNegativeDecimal(reply);
    assert Value(Token(Minus, "5", "5")) == -5.5 by {
      assert "5"[..0] == "";
      assert DigitsValue("5") == 5;
      assert Pow10(1) == 10;
    }
    PriceOfPlainReply(reply, Match(0, 4, Token(Minus, "5", "5")));
  }

  /** The integer alternative has no sign, so "-5" reads as 5: the `-` is passed over. */
  lemma SignDroppedOnInteger(reply: string)
    requires reply == "-5"
    ensures GetPrice(reply) == 5.0
  {
    DigitRunEndIs(reply, 1, 2);
    assert DecimalAt(reply, 0).None? && IntegerAt(reply, 0).None?;
    assert DecimalAt(reply, 1).None?;
    assert reply[1..2] == "5";
    assert Search(reply, 0) == Search(reply, 1) == Some(Match(1, 2, Token(NoSign, "5", "")));
    assert Value(Token(NoSign, "5", "")) == 5.0 by {
      assert "5"[..0] == "";
    }
    PriceOfPlainReply(reply, Match(1, 2, Token(NoSign, "5", "")));
  }

  /** The leftmost number wins, even over a decimal further on. */
  lemma FirstNumberWins(reply: string)
    requires reply == "5 or 6.7"
    ensures GetPrice(reply) == 5.0
  {
    DigitRunEndIs(reply, 0, 1);
    assert DecimalAt(reply, 0).None?;
    assert reply[0..1] == "5";
    assert Search(reply, 0) == Some(Match(0, 1, Token(NoSign, "5", "")));
    assert Value(Token(NoSign, "5", "")) == 5.0 by {
      assert "5"[..0] == "";
    }
    PriceOfPlainReply(reply, Match(0, 1, Token(NoSign, "5", "")));
  }

  lemma DollarZero()
    ensures GetPrice("$0") == 0.0
  {
  }

  lemma NoPriceMentioned(reply: string)
    requires reply == "no price mentioned"
    ensures GetPrice(reply) == 0.0
  {
    NoDigitNoPrice(reply);
  }

  lemma WordsBeforeZero(reply: string)
    requires reply == "Price is 0"
    ensures GetPrice(reply) == 0.0
  {
    assert forall k :: 0 <= k < 9 ==> IsPlain(reply[k]);
    SearchSkipsPlain(reply, 0, 9);
    assert BodyStart(reply, 9) == 9;
    assert DigitRunEnd(reply, 9) == 10;
    assert DecimalAt(reply, 9).None?;
    assert reply[9..10] == "0";
    assert Search(reply, 9) == Some(Match(9, 10, Token(NoSign, "0", "")));
    StripPlain(reply);
  }

  /** The words before the number are passed over, and the `$` is deleted. */
  lemma WordsBeforeThePrice(reply: string)
    requires reply == "Price is $0"
    ensures GetPrice(reply) == 0.0
  {
    var plain := reply[..9] + reply[10..];
    assert reply == reply[..9] + [reply[9]] + reply[10..];
    NoiseIgnored(reply[..9], reply[9], reply[10..]);
    assert plain == "Price is 0";
    WordsBeforeZero(plain);
  }

  lemma StripNoiseAround(d: char, x: char, c: char)
    requires IsNoise(d) && !IsNoise(x) && IsNoise(c)
    ensures Strip([d, x, c]) == [x]
  {
    assert Strip([c]) == [];
    assert [x, c][1..] == [c];
    assert Strip([x, c]) == [x];
    assert [d, x, c][1..] == [x, c];
  }

  /** Two deletions: a `$` in front and a `,` inside. */
  lemma StripTwoNoise(d: char, x: char, c: char, rest: string)
    requires IsNoise(d) && !IsNoise(x) && IsNoise(c)
    requires forall k :: 0 <= k < |rest| ==> !IsNoise(rest[k])
    ensures Strip([d, x, c] + rest) == [x] + rest
  {
    StripConcat([d, x, c], rest);
    StripNoiseAround(d, x, c);
    StripPlain(rest);
  }

  lemma StripThousands(reply: string, plain: string)
    requires reply == "$1,234.56 approx" && plain == "1234.56 approx"
    ensures Strip(reply) == plain
  {
    assert reply == [reply[0], reply[1], reply[2]] + reply[3..];
    StripTwoNoise(reply[0], reply[1], reply[2], reply[3..]);
    assert [reply[1]] + reply[3..] == plain;
  }

  lemma SearchThousands(plain: string)
    requires plain == "1234.56 approx"
    ensures Search(plain, 0) == Some(Match(0, 7, Token(NoSign, "1234", "56")))
  {
    DigitRunEndIs(plain, 0, 4);
    DigitRunEndIs(plain, 5, 7);
    assert plain[0..4] == "1234" && plain[5..7] == "56";
  }

  lemma ValueThousands()
    ensures Value(Token(NoSign, "1234", "56")) == 1234.56
  {
    assert "1234"[..3] == "123" && "123"[..2] == "12" && "12"[..1] == "1" && "1"[..0] == "";
    assert "56"[..1] == "5" && "5"[..0] == "";
    assert Pow10(2) == 100;
  }

  /** `$` and the thousands separator are deleted before matching, and the words after the number are ignored. */
  lemma ThousandsSeparator(reply: string)
    requires reply == "$1,234.56 approx"
    ensures GetPrice(reply) == 1234.56
  {
    var plain := "1234.56 approx";
    StripThousands(reply, plain);
    SearchThousands(plain);
    ValueThousands();
  }
}
