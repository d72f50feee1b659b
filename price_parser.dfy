/**
 * The lenient price parser `get_price` of the retrieval-augmented estimator.
 * It deletes every `$` and `,` from the model's reply and reads the leftmost
 * match of the regular expression `[-+]?\d*\.\d+|\d+` as a number, or 0.0 when
 * nothing matches.
 *
 * The match is computed by a small scanner (DecimalAt, IntegerAt, Search) that
 * follows how a backtracking engine runs the pattern: it tries each start
 * position from the left and, at one position, the decimal alternative before
 * the integer one. The scanner is proved against a declarative reading of the
 * pattern (DecimalWord, IntegerWord, IsLeftmostMatch).
 */
module PriceParser {
  import opened Wrappers
  import Seqs

  predicate IsDigit(c: char) { '0' <= c <= '9' }

  predicate IsSign(c: char) { c == '+' || c == '-' }

  /** The characters the parser deletes before matching. */
  predicate IsNoise(c: char) { c == '$' || c == ',' }

  /** `s.replace('$', '').replace(',', '')`, in one pass (see StripIsTwoReplaces). */
  function Strip(s: string): string
  {
    if s == [] then []
    else (if IsNoise(s[0]) then [] else [s[0]]) + Strip(s[1..])
  }

  /** The end of the longest run of digits that starts at i. */
  function DigitRunEnd(s: string, i: nat): (j: nat)
    requires i <= |s|
    ensures i <= j <= |s|
    decreases |s| - i
  {
    if i < |s| && IsDigit(s[i]) then DigitRunEnd(s, i + 1) else i
  }

  /** The run from i holds only digits and stops at the end of s or at a character that is not a digit. */
  lemma {:induction false} DigitRun(s: string, i: nat)
    requires i <= |s|
    ensures forall k :: i <= k < DigitRunEnd(s, i) ==> IsDigit(s[k])
    ensures DigitRunEnd(s, i) == |s| || !IsDigit(s[DigitRunEnd(s, i)])
    decreases |s| - i
  {
    if i < |s| && IsDigit(s[i]) {
      DigitRun(s, i + 1);
    }
  }

  datatype Sign = NoSign | Plus | Minus

  /** A matched number: its optional sign, the digits before the point and the digits after it. */
  datatype Token = Token(sign: Sign, whole: string, fraction: string)

  /** A match of the pattern covering s[start..end]. */
  datatype Match = Match(start: nat, end: nat, token: Token)

  function SignText(sign: Sign): string
  {
    match sign
    case NoSign => ""
    case Plus => "+"
    case Minus => "-"
  }

  /** The characters of the input a token was read from. */
  function Text(t: Token): string
  {
    SignText(t.sign) + t.whole + (if t.fraction == [] then "" else "." + t.fraction)
  }

  /** The first alternative `[-+]?\d*\.\d+` tried at position i. */
  function DecimalAt(s: string, i: nat): Option<Match>
    requires i <= |s|
  {
    var k := BodyStart(s, i);
    var m := DigitRunEnd(s, k);
    if m + 1 < |s| && s[m] == '.' && IsDigit(s[m + 1]) then
      var e := DigitRunEnd(s, m + 1);
      Some(Match(i, e, Token(SignAt(s, i), s[k..m], s[m + 1..e])))
    else
      None
  }

  /** The second alternative `\d+` tried at position i. */
  function IntegerAt(s: string, i: nat): Option<Match>
    requires i <= |s|
  {
    if i < |s| && IsDigit(s[i]) then
      var e := DigitRunEnd(s, i);
      Some(Match(i, e, Token(NoSign, s[i..e], "")))
    else
      None
  }

  /** The pattern at position i: the first alternative wins when both apply. */
  function MatchAt(s: string, i: nat): Option<Match>
    requires i <= |s|
  {
    var d := DecimalAt(s, i);
    if d.Some? then d else IntegerAt(s, i)
  }

  /** `re.search`: the match at the leftmost position where the pattern matches. */
  function Search(s: string, i: nat): Option<Match>
    requires i <= |s|
    decreases |s| - i
  {
    if i == |s| then None
    else
      var m := MatchAt(s, i);
      if m.Some? then m else Search(s, i + 1)
  }

  /** The numerical value of a digit string. */
  function DigitsValue(ds: string): nat
  {
    if ds == [] then 0
    else DigitsValue(ds[..|ds| - 1]) * 10 + (if IsDigit(ds[|ds| - 1]) then ds[|ds| - 1] as int - '0' as int else 0)
  }

  function Pow10(n: nat): (r: nat)
    ensures r > 0
  {
    if n == 0 then 1 else 10 * Pow10(n - 1)
  }

  /** `float(match.group())`, read exactly rather than rounded to a double. */
  function Value(t: Token): real
  {
    var magnitude := DigitsValue(t.whole) as real + DigitsValue(t.fraction) as real / Pow10(|t.fraction|) as real;
    if t.sign == Minus then -magnitude else magnitude
  }

  /** `get_price`. */
  function GetPrice(s: string): real
  {
    var m := Search(Strip(s), 0);
    if m.Some? then Value(m.value.token) else 0.0
  }

  // ---------------------------------------------------------------------------
  // The pattern read declaratively.

  ghost predicate AllDigits(w: string)
  {
    forall k :: 0 <= k < |w| ==> IsDigit(w[k])
  }

  /** w is a word of `\d+`. */
  ghost predicate IntegerWord(w: string)
  {
    |w| > 0 && AllDigits(w)
  }

  /** w is a word of `\d*\.\d+`, with the point at position p. */
  ghost predicate UnsignedDecimalAt(w: string, p: int)
  {
    0 <= p < |w| - 1 && w[p] == '.' && AllDigits(w[..p]) && AllDigits(w[p + 1..])
  }

  /** w is a word of `\d*\.\d+`. */
  ghost predicate UnsignedDecimalWord(w: string)
  {
    exists p :: UnsignedDecimalAt(w, p)
  }

  /** w is a word of `[-+]?\d*\.\d+`. */
  ghost predicate DecimalWord(w: string)
  {
    UnsignedDecimalWord(w) || (|w| > 0 && IsSign(w[0]) && UnsignedDecimalWord(w[1..]))
  }

  /** w is a word of the whole pattern `[-+]?\d*\.\d+|\d+`. */
  ghost predicate NumberWord(w: string)
  {
    DecimalWord(w) || IntegerWord(w)
  }

  /** No word of the pattern starts at a position in [lo, hi). */
  ghost predicate NoWordStartsIn(s: string, lo: nat, hi: nat)
  {
    forall k, j :: lo <= k < hi && k <= j <= |s| ==> !NumberWord(s[k..j])
  }

  /**
   * m is what a backtracking engine reports for the pattern searched in s:
   * no word starts further left, and at m's start it is the match described
   * by IsLeftmostMatchFrom.
   */
  ghost predicate IsLeftmostMatch(s: string, m: Match)
  {
    NoWordStartsIn(s, 0, m.start) && IsLeftmostMatchFrom(s, m)
  }

  /**
   * m is what the engine reports for a match starting at m.start: the token
   * spells out the text matched, its sign apart and its two parts digits only;
   * the decimal alternative is taken when it can match at all; and the
   * alternative taken matches as much as it can.
   */
  ghost predicate IsLeftmostMatchFrom(s: string, m: Match)
  {
    m.start <= m.end <= |s|
    && s[m.start..m.end] == Text(m.token)
    && AllDigits(m.token.whole) && AllDigits(m.token.fraction)
    && if m.token.fraction != [] then
         DecimalWord(s[m.start..m.end])
         && (forall j :: m.end < j <= |s| ==> !DecimalWord(s[m.start..j]))
       else
         m.token.sign == NoSign
         && IntegerWord(s[m.start..m.end])
         && (forall j :: m.start <= j <= |s| ==> !DecimalWord(s[m.start..j]))
         && (forall j :: m.end < j <= |s| ==> !IntegerWord(s[m.start..j]))
  }

  // ---------------------------------------------------------------------------
  // The scanner meets the declarative reading.

  /** A word of `\d*\.\d+` inside s starting at k has its point where the digit run from k ends. */
  lemma UnsignedDecimalShape(s: string, k: nat, j: nat)
    requires k <= j <= |s|
    requires UnsignedDecimalWord(s[k..j])
    ensures DigitRunEnd(s, k) + 1 < j
    ensures s[DigitRunEnd(s, k)] == '.'
    ensures forall t :: DigitRunEnd(s, k) < t < j ==> IsDigit(s[t])
  {
    var w := s[k..j];
    var p :| UnsignedDecimalAt(w, p);
    var m := DigitRunEnd(s, k);
    DigitRun(s, k);
    assert m <= k + p by {
      assert s[k + p] == w[p];
    }
    assert m >= k + p by {
      forall t | k <= t < k + p ensures IsDigit(s[t]) {
        assert w[..p][t - k] == s[t];
      }
      DigitRunReaches(s, k, k + p);
    }
    forall t | m < t < j ensures IsDigit(s[t]) {
      assert w[p + 1..][t - k - p - 1] == s[t];
    }
  }

  /** No word of `\d*\.\d+` starts with a sign. */
  lemma NoUnsignedDecimalAtSign(w: string)
    requires |w| > 0 && IsSign(w[0])
    ensures !UnsignedDecimalWord(w)
  {
    if p :| UnsignedDecimalAt(w, p) {
      if p > 0 {
        assert w[..p][0] == w[0];
      }
    }
  }

  /** The optional sign `[-+]?` of the first alternative tried at i. */
  function SignAt(s: string, i: nat): Sign
    requires i <= |s|
  {
    if i < |s| && s[i] == '-' then Minus
    else if i < |s| && s[i] == '+' then Plus
    else NoSign
  }

  /** The position after the optional sign of the first alternative tried at i. */
  function BodyStart(s: string, i: nat): nat
    requires i <= |s|
  {
    if i < |s| && IsSign(s[i]) then i + 1 else i
  }

  /** A decimal word starting at i is a word of `\d*\.\d+` after the optional sign. */
  lemma DecimalWordBody(s: string, i: nat, j: nat)
    requires i <= j <= |s|
    requires DecimalWord(s[i..j])
    ensures BodyStart(s, i) <= j && UnsignedDecimalWord(s[BodyStart(s, i)..j])
  {
    if i < |s| && IsSign(s[i]) {
      assert s[i..j][0] == s[i];
      NoUnsignedDecimalAtSign(s[i..j]);
      assert s[i..j][1..] == s[i + 1..j];
    }
  }

  /** DecimalAt finds a match at i whenever a word of the first alternative starts there, and no shorter one. */
  lemma DecimalAtComplete(s: string, i: nat, j: nat)
    requires i <= j <= |s|
    requires DecimalWord(s[i..j])
    ensures DecimalAt(s, i).Some? && DecimalAt(s, i).value.end >= j
  {
    DecimalWordBody(s, i, j);
    var k := BodyStart(s, i);
    UnsignedDecimalShape(s, k, j);
    var m := DigitRunEnd(s, k);
    assert m + 1 < |s| && s[m] == '.' && IsDigit(s[m + 1]);
    DigitRunReaches(s, m + 1, j);
  }

  /** A stretch of digits of s is a digit string. */
  lemma DigitsSlice(s: string, a: nat, b: nat)
    requires a <= b <= |s|
    requires forall t :: a <= t < b ==> IsDigit(s[t])
    ensures AllDigits(s[a..b])
  {
    forall t | 0 <= t < b - a ensures IsDigit(s[a..b][t]) {
      assert s[a..b][t] == s[a + t];
    }
  }

  /** Digits, a point and digits form a word of `\d*\.\d+`. */
  lemma UnsignedDecimalParts(s: string, k: nat, m: nat, e: nat)
    requires k <= m < e <= |s| && m + 1 < e
    requires s[m] == '.'
    requires forall t :: k <= t < m ==> IsDigit(s[t])
    requires forall t :: m < t < e ==> IsDigit(s[t])
    ensures s[k..e] == s[k..m] + "." + s[m + 1..e]
    ensures UnsignedDecimalWord(s[k..e])
  {
    var w := s[k..e];
    DigitsSlice(s, k, m);
    DigitsSlice(s, m + 1, e);
    assert w[..m - k] == s[k..m];
    assert w[m - k + 1..] == s[m + 1..e];
    assert UnsignedDecimalAt(w, m - k);
  }

  /** A sign followed by a word of `\d*\.\d+` is a word of `[-+]?\d*\.\d+`. */
  lemma SignedDecimal(s: string, i: nat, e: nat)
    requires i < e <= |s|
    requires IsSign(s[i]) && UnsignedDecimalWord(s[i + 1..e])
    ensures s[i..e] == [s[i]] + s[i + 1..e]
    ensures DecimalWord(s[i..e])
  {
    assert s[i..e][1..] == s[i + 1..e];
  }

  /** Where DecimalAt found a match, the point follows the first digit run and a digit follows the point. */
  lemma DecimalAtShape(s: string, i: nat)
    requires i <= |s|
    requires DecimalAt(s, i).Some?
    ensures var k := BodyStart(s, i);
      var m := DigitRunEnd(s, k);
      k <= m < m + 1 < DigitRunEnd(s, m + 1) <= |s| && s[m] == '.'
  {
    var k := BodyStart(s, i);
    var m := DigitRunEnd(s, k);
    DigitRun(s, m + 1);
  }

  /** The match DecimalAt found, field by field. */
  lemma DecimalAtFields(s: string, i: nat)
    requires i <= |s|
    requires DecimalAt(s, i).Some?
    ensures var k := BodyStart(s, i);
      var m := DigitRunEnd(s, k);
      var e := DigitRunEnd(s, m + 1);
      DecimalAt(s, i) == Some(Match(i, e, Token(SignAt(s, i), s[k..m], s[m + 1..e])))
  {
  }

  /** The sign read at i is the character skipped before the body, if any. */
  lemma SignAtText(s: string, i: nat)
    requires i <= |s|
    ensures BodyStart(s, i) == i ==> SignAt(s, i) == NoSign
    ensures BodyStart(s, i) == i + 1 ==> SignText(SignAt(s, i)) == [s[i]]
  {
  }

  /** Digits, a point and digits, read into a token, form a word of the first alternative. */
  lemma DecimalText(s: string, k: nat, m: nat, e: nat, t: Token)
    requires k <= m < m + 1 < e <= |s| && s[m] == '.'
    requires forall x :: k <= x < m ==> IsDigit(s[x])
    requires forall x :: m < x < e ==> IsDigit(s[x])
    requires t.whole == s[k..m] && t.fraction == s[m + 1..e]
    ensures t.fraction != []
    ensures Text(t) == SignText(t.sign) + s[k..e]
    ensures UnsignedDecimalWord(s[k..e])
  {
    UnsignedDecimalParts(s, k, m, e);
  }

  /** With the sign in front, the text is still a word of the first alternative. */
  lemma SignedDecimalText(s: string, i: nat, e: nat, t: Token)
    requires i < e <= |s| && IsSign(s[i])
    requires SignText(t.sign) == [s[i]] && Text(t) == [s[i]] + s[i + 1..e]
    requires UnsignedDecimalWord(s[i + 1..e])
    ensures s[i..e] == Text(t)
    ensures DecimalWord(s[i..e])
  {
    SignedDecimal(s, i, e);
  }

  /** What DecimalAt finds at i is a word of the first alternative, read into its parts. */
  lemma DecimalAtSound(s: string, i: nat)
    requires i <= |s|
    requires DecimalAt(s, i).Some?
    ensures var m := DecimalAt(s, i).value;
      m.start == i <= m.end <= |s|
      && m.token.fraction != []
      && s[i..m.end] == Text(m.token)
      && AllDigits(m.token.whole) && AllDigits(m.token.fraction)
      && DecimalWord(s[i..m.end])
  {
    DecimalAtShape(s, i);
    DecimalAtFields(s, i);
    SignAtText(s, i);
    var k := BodyStart(s, i);
    var m := DigitRunEnd(s, k);
    DigitRun(s, k);
    DigitRun(s, m + 1);
    var e := DigitRunEnd(s, m + 1);
    var t := DecimalAt(s, i).value.token;
    DigitsSlice(s, k, m);
    DigitsSlice(s, m + 1, e);
    DecimalText(s, k, m, e, t);
    if k == i {
      assert SignText(t.sign) == [];
    } else {
      SignedDecimalText(s, i, e, t);
    }
  }

  /** What DecimalAt finds is the longest word of `[-+]?\d*\.\d+` at i, and it finds one whenever one exists. */
  lemma DecimalAtCorrect(s: string, i: nat)
    requires i <= |s|
    ensures DecimalAt(s, i).None? <==> forall j :: i <= j <= |s| ==> !DecimalWord(s[i..j])
    ensures DecimalAt(s, i).Some? ==>
      var m := DecimalAt(s, i).value;
      m.start == i <= m.end <= |s|
      && m.token.fraction != []
      && s[i..m.end] == Text(m.token)
      && AllDigits(m.token.whole) && AllDigits(m.token.fraction)
      && DecimalWord(s[i..m.end])
      && forall j :: m.end < j <= |s| ==> !DecimalWord(s[i..j])
  {
    forall j | i <= j <= |s| && DecimalWord(s[i..j])
      ensures DecimalAt(s, i).Some? && DecimalAt(s, i).value.end >= j
    {
      DecimalAtComplete(s, i, j);
    }
    if DecimalAt(s, i).Some? {
      DecimalAtSound(s, i);
    }
  }

  /** What IntegerAt finds is the longest word of `\d+` at i, and it finds one whenever one exists. */
  lemma IntegerAtCorrect(s: string, i: nat)
    requires i <= |s|
    ensures IntegerAt(s, i).None? <==> forall j :: i <= j <= |s| ==> !IntegerWord(s[i..j])
    ensures IntegerAt(s, i).Some? ==>
      var m := IntegerAt(s, i).value;
      m.start == i <= m.end <= |s|
      && m.token.fraction == [] && m.token.sign == NoSign
      && s[i..m.end] == Text(m.token)
      && AllDigits(m.token.whole) && AllDigits(m.token.fraction)
      && IntegerWord(s[i..m.end])
      && forall j :: m.end < j <= |s| ==> !IntegerWord(s[i..j])
  {
    if i < |s| && IsDigit(s[i]) {
      var e := DigitRunEnd(s, i);
      DigitRun(s, i);
      assert IntegerWord(s[i..e]) by {
        forall t | 0 <= t < e - i ensures IsDigit(s[i..e][t]) { assert s[i..e][t] == s[i + t]; }
      }
      forall j | e < j <= |s| ensures !IntegerWord(s[i..j]) {
        assert s[i..j][e - i] == s[e];
      }
    } else {
      forall j | i <= j <= |s| ensures !IntegerWord(s[i..j]) {
        if j > i { assert s[i..j][0] == s[i]; }
      }
    }
  }

  /** No word starts at the end of s. */
  lemma NoWordAtEnd(s: string)
    ensures NoWordStartsIn(s, |s|, |s| + 1)
  {
    forall k, j | |s| <= k < |s| + 1 && k <= j <= |s| ensures !NumberWord(s[k..j]) {
      assert s[k..j] == [];
    }
  }

  /** What MatchAt finds is what the engine reports for a match starting at i. */
  lemma MatchAtCorrect(s: string, i: nat)
    requires i <= |s|
    ensures MatchAt(s, i).None? <==> NoWordStartsIn(s, i, i + 1)
    ensures MatchAt(s, i).Some? ==> MatchAt(s, i).value.start == i && IsLeftmostMatchFrom(s, MatchAt(s, i).value)
  {
    DecimalAtCorrect(s, i);
    IntegerAtCorrect(s, i);
  }

  lemma NoWordStartsInJoin(s: string, lo: nat, mid: nat, hi: nat)
    requires lo <= mid <= hi
    requires NoWordStartsIn(s, lo, mid) && NoWordStartsIn(s, mid, hi)
    ensures NoWordStartsIn(s, lo, hi)
  {
  }

  /** Search from i reports the leftmost match at or after i, or that no word starts at or after i. */
  lemma {:induction false} SearchCorrect(s: string, i: nat)
    requires i <= |s|
    ensures Search(s, i).None? ==> NoWordStartsIn(s, i, |s| + 1)
    ensures Search(s, i).Some? ==>
      var m := Search(s, i).value;
      i <= m.start
      && NoWordStartsIn(s, i, m.start)
      && IsLeftmostMatchFrom(s, m)
    decreases |s| - i
  {
    if i == |s| {
      NoWordAtEnd(s);
    } else {
      MatchAtCorrect(s, i);
      if MatchAt(s, i).None? {
        SearchCorrect(s, i + 1);
        if Search(s, i + 1).Some? {
          NoWordStartsInJoin(s, i, i + 1, Search(s, i + 1).value.start);
        } else {
          NoWordStartsInJoin(s, i, i + 1, |s| + 1);
        }
      }
    }
  }

  /** re.search over the whole string: the leftmost match, or none when no word of the pattern occurs. */
  lemma SearchIsLeftmostMatch(s: string)
    ensures Search(s, 0).None? <==> NoWordStartsIn(s, 0, |s| + 1)
    ensures Search(s, 0).Some? ==> IsLeftmostMatch(s, Search(s, 0).value)
    ensures Search(s, 0).Some? ==> IsLongestWordAt(s, Search(s, 0).value)
  {
    SearchCorrect(s, 0);
    if Search(s, 0).Some? {
      MatchIsLongestWord(s, Search(s, 0).value);
    }
  }

  /** No word of the whole pattern that starts where m starts reaches past m's end. */
  ghost predicate IsLongestWordAt(s: string, m: Match)
    requires m.start <= m.end <= |s|
  {
    forall j :: m.end < j <= |s| ==> !NumberWord(s[m.start..j])
  }

  /** A word of `\d+` cannot extend a word of `[-+]?\d*\.\d+`: the sign or the point is in the way. */
  lemma DecimalNotInteger(s: string, a: nat, e: nat, j: nat)
    requires a <= e < j <= |s|
    requires DecimalWord(s[a..e])
    ensures !IntegerWord(s[a..j])
  {
    var w := s[a..e];
    var v := s[a..j];
    if UnsignedDecimalWord(w) {
      var p :| UnsignedDecimalAt(w, p);
      assert v[p] == w[p];
    } else {
      assert v[0] == w[0];
    }
  }

  /** The alternative the engine takes is also the longest word of the whole pattern at that position. */
  lemma MatchIsLongestWord(s: string, m: Match)
    requires IsLeftmostMatchFrom(s, m)
    ensures IsLongestWordAt(s, m)
  {
    forall j | m.end < j <= |s|
      ensures !NumberWord(s[m.start..j])
    {
      if m.token.fraction != [] {
        DecimalNotInteger(s, m.start, m.end, j);
      }
    }
  }

  /** The sign of the token is the sign written in front of the match, if any: a decimal keeps its `-`. */
  lemma MatchSign(s: string, m: Match)
    requires IsLeftmostMatchFrom(s, m)
    ensures m.start < m.end
    ensures m.token.sign == Minus <==> s[m.start] == '-'
    ensures m.token.sign == Plus <==> s[m.start] == '+'
  {
    var t := Text(m.token);
    if m.token.sign == NoSign {
      if m.token.whole != [] {
        assert t[0] == m.token.whole[0];
      } else {
        assert t[0] == '.';
      }
    } else {
      assert t[0] == SignText(m.token.sign)[0];
    }
    assert s[m.start..m.end][0] == s[m.start];
  }

  /** Anything the search finds lies at or after i and contains a digit. */
  lemma {:induction false} SearchFindsDigit(s: string, i: nat)
    requires i <= |s|
    requires Search(s, i).Some?
    ensures var m := Search(s, i).value;
      i <= m.start <= m.end <= |s| && exists k :: m.start <= k < m.end && IsDigit(s[k])
    ensures exists c :: c in s && IsDigit(c)
    decreases |s| - i
  {
    if MatchAt(s, i).Some? {
      if DecimalAt(s, i).Some? {
        DecimalAtShape(s, i);
        DecimalAtFields(s, i);
        var k := DigitRunEnd(s, BodyStart(s, i)) + 1;
        assert IsDigit(s[k]) && s[k] in s;
      } else {
        DigitRun(s, i);
        assert IsDigit(s[i]) && s[i] in s;
      }
    } else {
      SearchFindsDigit(s, i + 1);
    }
  }

  // ---------------------------------------------------------------------------
  // Properties of get_price.

  predicate NotDollar(c: char) { c != '$' }

  predicate NotComma(c: char) { c != ',' }

  /** The one-pass Strip is the two successive `str.replace` calls of the source. */
  lemma {:induction false} StripIsTwoReplaces(s: string)
    ensures Strip(s) == Seqs.Filter(Seqs.Filter(s, NotDollar), NotComma)
  {
    if s != [] {
      StripIsTwoReplaces(s[1..]);
      Seqs.FilterConcat([s[0]], s[1..], NotDollar);
      assert s == [s[0]] + s[1..];
      Seqs.FilterConcat(Seqs.Filter([s[0]], NotDollar), Seqs.Filter(s[1..], NotDollar), NotComma);
    }
  }

  /** Strip deletes every `$` and `,` and keeps every other character, in order. */
  lemma {:induction false} StripKeeps(s: string)
    ensures forall c :: c in Strip(s) <==> c in s && !IsNoise(c)
  {
    if s != [] {
      StripKeeps(s[1..]);
      assert s == [s[0]] + s[1..];
    }
  }

  lemma {:induction false} StripConcat(a: string, b: string)
    ensures Strip(a + b) == Strip(a) + Strip(b)
  {
    if a == [] {
      assert a + b == b;
    } else {
      assert (a + b)[1..] == a[1..] + b;
      StripConcat(a[1..], b);
    }
  }

  /** A `$` or `,` is deleted wherever it stands. */
  lemma StripDropsNoise(a: string, c: char, b: string)
    requires IsNoise(c)
    ensures Strip(a + [c] + b) == Strip(a) + Strip(b)
  {
    assert Strip([c]) == [];
    StripConcat(a + [c], b);
    StripConcat(a, [c]);
  }

  /** The price depends on the reply only through the reply with `$` and `,` deleted. */
  lemma PriceOfStripped(x: string, y: string)
    requires Strip(x) == Strip(y)
    ensures GetPrice(x) == GetPrice(y)
  {
  }

  /** A `$` or `,` anywhere in the reply makes no difference to the price read from it. */
  lemma NoiseIgnored(a: string, c: char, b: string)
    requires IsNoise(c)
    ensures GetPrice(a + [c] + b) == GetPrice(a + b)
  {
    assert Strip(a + [c] + b) == Strip(a + b) by {
      StripDropsNoise(a, c, b);
      StripConcat(a, b);
    }
    PriceOfStripped(a + [c] + b, a + b);
  }

  /** A reply without `$` and `,` is matched as it is. */
  lemma {:induction false} StripPlain(s: string)
    requires forall k :: 0 <= k < |s| ==> !IsNoise(s[k])
    ensures Strip(s) == s
  {
    if s != [] {
      StripPlain(s[1..]);
    }
  }

  /** A reply that mentions no digit is read as 0. */
  lemma NoDigitNoPrice(s: string)
    requires forall c :: c in s ==> !IsDigit(c)
    ensures GetPrice(s) == 0.0
  {
    StripKeeps(s);
    if Search(Strip(s), 0).Some? {
      SearchFindsDigit(Strip(s), 0);
      assert false;
    }
  }

  /** A character that can begin neither alternative of the pattern. */
  predicate IsPlain(c: char)
  {
    !IsDigit(c) && !IsSign(c) && c != '.'
  }

  lemma NoMatchAtPlain(s: string, i: nat)
    requires i < |s| && IsPlain(s[i])
    ensures MatchAt(s, i).None?
  {
    assert BodyStart(s, i) == i && DigitRunEnd(s, i) == i;
  }

  /** The search passes over text that holds no digit, sign or point. */
  lemma {:induction false} SearchSkipsPlain(s: string, i: nat, j: nat)
    requires i <= j <= |s|
    requires forall k :: i <= k < j ==> IsPlain(s[k])
    ensures Search(s, i) == Search(s, j)
    decreases j - i
  {
    if i < j {
      NoMatchAtPlain(s, i);
      SearchSkipsPlain(s, i + 1, j);
    }
  }

  /** The run from i reaches past every digit that follows i without a gap. */
  lemma {:induction false} DigitRunReaches(s: string, i: nat, j: nat)
    requires i <= j <= |s|
    requires forall k :: i <= k < j ==> IsDigit(s[k])
    ensures DigitRunEnd(s, i) >= j
    decreases j - i
  {
    if i < j {
      DigitRunReaches(s, i + 1, j);
    }
  }

  /** DigitRunEnd is the only end of a digit run that starts at i. */
  lemma {:induction false} DigitRunEndIs(s: string, i: nat, j: nat)
    requires i <= j <= |s|
    requires forall k :: i <= k < j ==> IsDigit(s[k])
    requires j == |s| || !IsDigit(s[j])
    ensures DigitRunEnd(s, i) == j
    decreases j - i
  {
    if i < j {
      DigitRunEndIs(s, i + 1, j);
    }
  }

  /** For a reply without `$` and `,`, the price is the value of the match the search finds in it. */
  lemma PriceOfPlainReply(s: string, m: Match)
    requires forall k :: 0 <= k < |s| ==> !IsNoise(s[k])
    requires Search(s, 0) == Some(m)
    ensures GetPrice(s) == Value(m.token)
  {
    StripPlain(s);
  }
}
