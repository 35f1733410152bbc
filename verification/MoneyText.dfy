/** `formatMoneyAmount`: grouping the integer digits of a decimal text for display. */
module MoneyText {
  import opened Basics

  datatype Money = Money(sign: string, digits: DecimalText)

  /** `^(-?)(\d+)(?:\.(\d+))?$`. */
  function MatchMoney(raw: string): Option<Money> {
    var negative := raw != "" && raw[0] == '-';
    var m := MatchDecimal(if negative then raw[1..] else raw);
    if m.None? then None else Some(Money(if negative then "-" else "", m.value))
  }

  /** `digits.replace(/\B(?=(\d{3})+(?!\d))/g, ',')`: a comma goes between two digits when
      the number of digits after it is a multiple of three. */
  function Grouped(digits: string): string {
    if |digits| <= 1 then digits
    else [digits[0]] + (if (|digits| - 1) % 3 == 0 then "," else "") + Grouped(digits[1..])
  }

  function FormatMoneyAmount(raw: string): string {
    match MatchMoney(raw)
    case None => raw
    case Some(m) =>
      m.sign + (Grouped(m.digits.whole) + Tail(m.digits.fraction))
  }

  // ------------------------------------------------------- taking commas out

  function WithoutCommas(s: string): string {
    if s == "" then "" else (if s[0] == ',' then "" else [s[0]]) + WithoutCommas(s[1..])
  }

  lemma {:induction false} WithoutCommasOfConcat(a: string, b: string)
    ensures WithoutCommas(a + b) == WithoutCommas(a) + WithoutCommas(b)
  {
    if a == "" {
      assert a + b == b;
    } else {
      assert (a + b)[1..] == a[1..] + b;
      WithoutCommasOfConcat(a[1..], b);
    }
  }

  lemma {:induction false} DigitsHaveNoCommas(digits: string)
    requires AllDigits(digits)
    ensures WithoutCommas(digits) == digits
  {
    if digits != "" {
      DigitsHaveNoCommas(digits[1..]);
    }
  }

  lemma {:induction false} GroupedKeepsDigits(digits: string)
    requires AllDigits(digits)
    ensures WithoutCommas(Grouped(digits)) == digits
  {
    if |digits| <= 1 {
      DigitsHaveNoCommas(digits);
    } else {
      var comma := if (|digits| - 1) % 3 == 0 then "," else "";
      GroupedKeepsDigits(digits[1..]);
      WithoutCommasOfConcat([digits[0]] + comma, Grouped(digits[1..]));
      WithoutCommasOfConcat([digits[0]], comma);
      assert digits == [digits[0]] + digits[1..];
    }
  }

  lemma MatchedText(raw: string)
    requires MatchMoney(raw).Some?
    ensures var m := MatchMoney(raw).value;
            && raw == m.sign + (m.digits.whole + Tail(m.digits.fraction))
            && (m.sign == "" || m.sign == "-") && IsDecimal(m.digits)
  {
    var negative := raw != "" && raw[0] == '-';
    var digits := if negative then raw[1..] else raw;
    assert MatchDecimal(digits).Some?;
    MatchedDecimal(digits);
    assert raw == (if negative then "-" else "") + digits;
  }

  /** Accepted are exactly the decimals with or without one minus sign in front. */
  lemma MatchMoneyMeans(raw: string, m: Money)
    ensures MatchMoney(raw) == Some(m) <==>
            && (m.sign == "" || m.sign == "-") && IsDecimal(m.digits)
            && raw == m.sign + (m.digits.whole + Tail(m.digits.fraction))
  {
    var negative := raw != "" && raw[0] == '-';
    var digits := if negative then raw[1..] else raw;
    MatchDecimalMeans(digits, m.digits);
    if MatchMoney(raw) == Some(m) {
      MatchedText(raw);
    }
    if && (m.sign == "" || m.sign == "-") && IsDecimal(m.digits)
       && raw == m.sign + (m.digits.whole + Tail(m.digits.fraction))
    {
      SignIsRead(raw, m);
    }
  }

  lemma SignIsRead(raw: string, m: Money)
    requires (m.sign == "" || m.sign == "-") && IsDecimal(m.digits)
    requires raw == m.sign + (m.digits.whole + Tail(m.digits.fraction))
    ensures MatchMoney(raw) == Some(m)
  {
    var digits := m.digits.whole + Tail(m.digits.fraction);
    assert IsDigit(digits[0]) by {
      assert digits[0] == m.digits.whole[0];
    }
    MatchDecimalMeans(digits, m.digits);
    if m.sign == "-" {
      assert raw[1..] == digits;
    } else {
      assert raw == digits;
    }
  }

  /** Deleting the commas gives back exactly what was typed. */
  lemma FormattingIsReversible(raw: string)
    requires MatchMoney(raw).Some?
    ensures WithoutCommas(FormatMoneyAmount(raw)) == raw
  {
    MatchedText(raw);
    var m := MatchMoney(raw).value;
    var tail := Tail(m.digits.fraction);
    if m.digits.fraction.Some? {
      DigitsHaveNoCommas(m.digits.fraction.value);
      WithoutCommasOfConcat(".", m.digits.fraction.value);
    }
    GroupedKeepsDigits(m.digits.whole);
    WithoutCommasOfConcat(Grouped(m.digits.whole), tail);
    WithoutCommasOfConcat(m.sign, Grouped(m.digits.whole) + tail);
  }

  /** Different amounts never print alike. */
  lemma DistinctAmountsPrintApart(a: string, b: string)
    requires MatchMoney(a).Some? && MatchMoney(b).Some?
    requires FormatMoneyAmount(a) == FormatMoneyAmount(b)
    ensures a == b
  {
    FormattingIsReversible(a);
    FormattingIsReversible(b);
  }

  lemma {:induction false} WithoutCommasIsShorter(s: string)
    ensures |WithoutCommas(s)| <= |s|
    ensures WithoutCommas(s) == s <==> ',' !in s
  {
    if s != "" {
      WithoutCommasIsShorter(s[1..]);
      assert s == [s[0]] + s[1..];
    }
  }

  lemma AcceptedHasNoComma(raw: string)
    requires MatchMoney(raw).Some?
    ensures ',' !in raw
  {
    MatchedText(raw);
    var m := MatchMoney(raw).value;
    assert ',' !in m.sign && ',' !in m.digits.whole && ',' !in Tail(m.digits.fraction);
  }

  lemma CommasAreRejected(raw: string)
    requires ',' in raw
    ensures MatchMoney(raw).None?
  {
    if MatchMoney(raw).Some? {
      AcceptedHasNoComma(raw);
    }
  }

  /** Whatever is typed, accepted or passed through: deleting the commas of what is printed
      gives it back exactly when it has no commas itself. */
  lemma ReversibleWithoutCommas(raw: string)
    ensures WithoutCommas(FormatMoneyAmount(raw)) == raw <==> ',' !in raw
  {
    if MatchMoney(raw).Some? {
      AcceptedHasNoComma(raw);
      FormattingIsReversible(raw);
    } else {
      WithoutCommasIsShorter(raw);
    }
  }

  /** Formatting what is printed changes nothing. */
  lemma FormattingTwice(raw: string)
    ensures FormatMoneyAmount(FormatMoneyAmount(raw)) == FormatMoneyAmount(raw)
  {
    var text := FormatMoneyAmount(raw);
    if MatchMoney(raw).Some? && MatchMoney(text).Some? {
      FormattingIsReversible(raw);
      AcceptedHasNoComma(text);
      WithoutCommasIsShorter(text);
    }
  }

  /** Two texts print alike exactly if they are equal or one is typed as the other is printed. */
  lemma PrintAlike(a: string, b: string)
    ensures FormatMoneyAmount(a) == FormatMoneyAmount(b) <==>
            a == b || FormatMoneyAmount(a) == b || a == FormatMoneyAmount(b)
    ensures FormatMoneyAmount(a) == FormatMoneyAmount(b) && ',' !in a && ',' !in b ==> a == b
  {
    FormattingTwice(a);
    FormattingTwice(b);
    ReversibleWithoutCommas(a);
    ReversibleWithoutCommas(b);
    if MatchMoney(a).Some? && MatchMoney(b).Some? && FormatMoneyAmount(a) == FormatMoneyAmount(b) {
      DistinctAmountsPrintApart(a, b);
    }
  }

  /** A pair of the second kind: a text with commas is passed through, and looks like the
      amount it spells. */
  lemma RejectedTextMayLookLikeAnAmount()
    ensures MatchMoney("1,000").None? && FormatMoneyAmount("1,000") == FormatMoneyAmount("1000") == "1,000"
  {
    PlainThousand("1000");
    assert "1,000"[1] == ',';
    CommasAreRejected("1,000");
  }

  lemma PlainThousand(typed: string)
    requires typed == "1000"
    ensures MatchMoney(typed).Some? && FormatMoneyAmount(typed) == "1,000"
  {
    assert IndexOf(typed, '.') == 4 by {
      assert '.' !in typed;
    }
    assert typed[..4] == typed;
    assert AllDigits(typed);
    GroupedThousand(typed);
  }

  lemma GroupedThousand(typed: string)
    requires typed == "1000"
    ensures Grouped(typed) == "1,000"
  {
    assert typed[1..] == "000" && "000"[1..] == "00" && "00"[1..] == "0";
    assert Grouped("0") == "0" && Grouped("00") == "00" && Grouped("000") == "000";
  }

  // ------------------------------------------------------- the groups

  /** Digits in groups of three, the first of one to three, with a comma between groups. */
  ghost predicate IsGrouping(text: string, groups: seq<string>) {
    && groups != []
    && 1 <= |groups[0]| <= 3
    && (forall i :: 0 <= i < |groups| ==> AllDigits(groups[i]))
    && (forall i :: 1 <= i < |groups| ==> |groups[i]| == 3)
    && text == Joined(groups)
  }

  function Joined(groups: seq<string>): string
    requires groups != []
  {
    if |groups| == 1 then groups[0] else groups[0] + ("," + Joined(groups[1..]))
  }

  lemma NewFirstGroup(c: char, text: string, groups: seq<string>)
    requires IsDigit(c) && IsGrouping(text, groups) && |groups[0]| == 3
    ensures IsGrouping([c] + ("," + text), [[c]] + groups)
  {
  }

  lemma LongerFirstGroup(c: char, text: string, groups: seq<string>)
    requires IsDigit(c) && IsGrouping(text, groups) && |groups[0]| < 3
    ensures IsGrouping([c] + text, [[c] + groups[0]] + groups[1..])
  {
  }

  lemma GroupedStep(digits: string)
    requires |digits| > 1
    ensures var text := Grouped(digits[1..]);
            Grouped(digits) == [digits[0]] + if (|digits| - 1) % 3 == 0 then "," + text else text
  {
  }

  lemma {:induction false} GroupsOfThree(digits: string) returns (groups: seq<string>)
    requires digits != "" && AllDigits(digits)
    ensures IsGrouping(Grouped(digits), groups)
    ensures |groups[0]| % 3 == |digits| % 3
  {
    if |digits| == 1 {
      groups := [digits];
    } else {
      var rest := GroupsOfThree(digits[1..]);
      GroupedStep(digits);
      if (|digits| - 1) % 3 == 0 {
        groups := [[digits[0]]] + rest;
        NewFirstGroup(digits[0], Grouped(digits[1..]), rest);
      } else {
        groups := [[digits[0]] + rest[0]] + rest[1..];
        LongerFirstGroup(digits[0], Grouped(digits[1..]), rest);
      }
    }
  }

  /** What is printed: the sign as typed, the integer digits in groups, the fraction as typed. */
  lemma PrintedShape(raw: string) returns (m: Money, groups: seq<string>)
    requires MatchMoney(raw).Some?
    ensures m == MatchMoney(raw).value
    ensures groups != []
    ensures FormatMoneyAmount(raw) ==
            m.sign + (Joined(groups) + Tail(m.digits.fraction))
    ensures IsGrouping(Joined(groups), groups)
  {
    MatchedText(raw);
    m := MatchMoney(raw).value;
    groups := GroupsOfThree(m.digits.whole);
  }
}
