/** Decimal rendering of integers as Python renders them: `str(x)` (plain
    decimal) and `format(x, ",")` (decimal with a comma between every group
    of three digits, counted from the right). Parsing functions are the
    inverses used to state what the renderings preserve. */
module NumberFormat {

  predicate IsDigit(c: char) {
    '0' <= c <= '9'
  }

  predicate AllDigits(s: string) {
    forall k :: 0 <= k < |s| ==> IsDigit(s[k])
  }

  function DigitChar(d: nat): (c: char)
    requires d < 10
    ensures IsDigit(c) && DigitValue(c) == d
  {
    ('0' as int + d) as char
  }

  /** The value of one decimal digit; a character that is not a digit reads as 0. */
  function DigitValue(c: char): (d: nat)
    ensures d < 10
  {
    if IsDigit(c) then c as int - '0' as int else 0
  }

  /** `str(n)` for a natural number: most significant digit first. */
  function NatToString(n: nat): (r: string)
    ensures |r| >= 1 && AllDigits(r)
    ensures r[0] == '0' <==> n == 0
    ensures n < 10 <==> |r| == 1
    decreases n
  {
    if n < 10 then [DigitChar(n)] else NatToString(n / 10) + [DigitChar(n % 10)]
  }

  /** `str(x)` for an integer: a minus sign in front of a negative number. */
  function IntToString(x: int): (r: string)
    ensures |r| >= 1
    ensures r[0] == '-' <==> x < 0
    ensures x >= 0 ==> AllDigits(r)
    ensures x < 0 ==> AllDigits(r[1..])
  {
    if x < 0 then "-" + NatToString(-x) else NatToString(x)
  }

  /** The value of a string of decimal digits, most significant first. */
  function ParseDigits(s: string): nat {
    if s == [] then 0 else ParseDigits(s[..|s| - 1]) * 10 + DigitValue(s[|s| - 1])
  }

  /** The value of an optionally signed decimal string. */
  function ParseInt(s: string): int {
    if |s| > 0 && s[0] == '-' then -(ParseDigits(s[1..]) as int) else ParseDigits(s)
  }

  /** The form `str` gives a natural number: digits only, no leading zero. */
  predicate IsCanonicalDecimal(s: string) {
    |s| >= 1 && AllDigits(s) && (s[0] == '0' ==> |s| == 1)
  }

  lemma {:induction false} NatRoundTrip(n: nat)
    ensures ParseDigits(NatToString(n)) == n
    decreases n
  {
    if n >= 10 {
      var s := NatToString(n);
      assert s[..|s| - 1] == NatToString(n / 10);
      NatRoundTrip(n / 10);
    }
  }

  lemma {:induction false} LeadingDigitPositive(s: string)
    requires |s| >= 1 && AllDigits(s) && s[0] != '0'
    ensures ParseDigits(s) >= 1
    decreases |s|
  {
    if |s| > 1 {
      LeadingDigitPositive(s[..|s| - 1]);
    }
  }

  /** The other direction: every canonical decimal string is what `str`
      gives for its value, so `str` and parsing are mutually inverse. */
  lemma {:induction false} CanonicalRoundTrip(s: string)
    requires IsCanonicalDecimal(s)
    ensures NatToString(ParseDigits(s)) == s
    decreases |s|
  {
    if |s| > 1 {
      var init := s[..|s| - 1];
      LeadingDigitPositive(init);
      CanonicalRoundTrip(init);
      var n := ParseDigits(s);
      assert n / 10 == ParseDigits(init) && n % 10 == DigitValue(s[|s| - 1]);
      assert s == init + [s[|s| - 1]];
    }
  }

  lemma IntRoundTrip(x: int)
    ensures ParseInt(IntToString(x)) == x
  {
    if x < 0 {
      var digits := NatToString(-x);
      var s := "-" + digits;
      assert s[0] == '-' && s[1..] == digits;
      NatRoundTrip(-x);
    } else {
      var s := NatToString(x);
      assert IsDigit(s[0]);
      NatRoundTrip(x);
    }
  }

  /** The three digits of a group below a comma, zero-padded. */
  function Group3(m: nat): (r: string)
    requires m < 1000
    ensures |r| == 3 && AllDigits(r)
  {
    [DigitChar(m / 100), DigitChar(m / 10 % 10), DigitChar(m % 10)]
  }

  /** `format(n, ",")` for a natural number. */
  function GroupedNat(n: nat): (r: string)
    ensures |r| >= 1 && IsDigit(r[0])
    ensures r[0] == '0' <==> n == 0
    decreases n
  {
    if n < 1000 then NatToString(n) else GroupedNat(n / 1000) + "," + Group3(n % 1000)
  }

  /** `format(x, ",")` for an integer. */
  function WithCommas(x: int): (r: string)
    ensures |r| >= 1
    ensures r[0] == '-' <==> x < 0
  {
    if x < 0 then "-" + GroupedNat(-x) else GroupedNat(x)
  }

  /** The string with every comma removed. */
  function StripCommas(s: string): (r: string)
    ensures |r| <= |s|
  {
    if s == [] then [] else (if s[0] == ',' then [] else [s[0]]) + StripCommas(s[1..])
  }

  lemma {:induction false} StripCommasAppend(a: string, b: string)
    ensures StripCommas(a + b) == StripCommas(a) + StripCommas(b)
    decreases |a|
  {
    if a != [] {
      var first := if a[0] == ',' then [] else [a[0]];
      assert (a + b)[0] == a[0] && (a + b)[1..] == a[1..] + b;
      StripCommasAppend(a[1..], b);
      calc {
        StripCommas(a + b);
        first + StripCommas(a[1..] + b);
        first + (StripCommas(a[1..]) + StripCommas(b));
        (first + StripCommas(a[1..])) + StripCommas(b);
      }
    } else {
      assert a + b == b;
    }
  }

  lemma {:induction false} StripCommasOfDigits(s: string)
    requires AllDigits(s)
    ensures StripCommas(s) == s
    decreases |s|
  {
    if s != [] {
      StripCommasOfDigits(s[1..]);
    }
  }

  /** The last three digits of `str(n)` are the zero-padded `n % 1000`. */
  lemma DecimalSplit3(n: nat)
    requires n >= 1000
    ensures NatToString(n) == NatToString(n / 1000) + Group3(n % 1000)
  {
    var q, r := n / 1000, n % 1000;
    assert n / 10 == 100 * q + r / 10;
    assert n / 100 == 10 * q + r / 100;
    assert (n / 10) / 10 == n / 100;
    assert (n / 100) / 10 == q;
    assert n % 10 == r % 10;
    assert (n / 10) % 10 == r / 10 % 10;
    assert (n / 100) % 10 == r / 100;
    calc {
      NatToString(n);
      NatToString(n / 10) + [DigitChar(n % 10)];
      NatToString(n / 100) + [DigitChar(n / 10 % 10)] + [DigitChar(n % 10)];
      NatToString(q) + [DigitChar(n / 100 % 10)] + [DigitChar(n / 10 % 10)] + [DigitChar(n % 10)];
      NatToString(q) + Group3(r);
    }
  }

  /** Removing the commas from a head, a comma and a group of digits. */
  lemma StripJoin(head: string, group: string)
    requires AllDigits(group)
    ensures StripCommas(head + "," + group) == StripCommas(head) + group
  {
    var tail := "," + group;
    assert tail[0] == ',' && tail[1..] == group;
    assert StripCommas(tail) == StripCommas(group);
    StripCommasOfDigits(group);
    assert head + "," + group == head + tail;
    StripCommasAppend(head, tail);
  }

  /** Removing the commas from `format(n, ",")` gives back `str(n)`. */
  lemma {:induction false} StripGroupedNat(n: nat)
    ensures StripCommas(GroupedNat(n)) == NatToString(n)
    decreases n
  {
    if n < 1000 {
      StripCommasOfDigits(NatToString(n));
    } else {
      StripGroupedNat(n / 1000);
      StripJoin(GroupedNat(n / 1000), Group3(n % 1000));
      DecimalSplit3(n);
    }
  }

  lemma StripWithCommas(x: int)
    ensures StripCommas(WithCommas(x)) == IntToString(x)
  {
    if x < 0 {
      StripCommasAppend("-", GroupedNat(-x));
      StripGroupedNat(-x);
    } else {
      StripGroupedNat(x);
    }
  }

  /** The layout of `format(n, ",")`: a comma at exactly every fourth
      position counted from the right end, digits everywhere else, and no
      leading comma or leading zero. */
  predicate CommaGrouped(s: string) {
    && |s| >= 1
    && |s| % 4 != 0
    && (forall k :: 0 <= k < |s| ==> (s[k] == ',' <==> (|s| - k) % 4 == 0))
    && (forall k :: 0 <= k < |s| && s[k] != ',' ==> IsDigit(s[k]))
    && (s[0] == '0' ==> |s| == 1)
  }

  lemma SmallDecimalLength(n: nat)
    requires n < 1000
    ensures |NatToString(n)| <= 3
  {
    if n >= 10 {
      assert n / 10 < 100;
      if n / 10 >= 10 {
        assert NatToString(n / 10) == NatToString(n / 100) + [DigitChar(n / 10 % 10)];
      }
    }
  }

  /** Putting a comma and a group of three digits after a grouped number
      keeps the layout. */
  lemma GroupedStep(head: string, group: string)
    requires CommaGrouped(head) && head[0] != '0' && |group| == 3 && AllDigits(group)
    ensures CommaGrouped(head + "," + group)
  {
    var s := head + "," + group;
    forall k | 0 <= k < |s|
      ensures s[k] == ',' <==> (|s| - k) % 4 == 0
      ensures s[k] != ',' ==> IsDigit(s[k])
    {
      if k < |head| {
        assert s[k] == head[k];
        assert |s| - k == (|head| - k) + 4;
      } else if k == |head| {
        assert |s| - k == 4;
      } else {
        assert s[k] == group[k - |head| - 1];
        assert 1 <= |s| - k <= 3;
      }
    }
  }

  lemma {:induction false} GroupedNatLayout(n: nat)
    ensures CommaGrouped(GroupedNat(n))
    decreases n
  {
    if n < 1000 {
      SmallDecimalLength(n);
    } else {
      var head := GroupedNat(n / 1000);
      GroupedNatLayout(n / 1000);
      GroupedStep(head, Group3(n % 1000));
    }
  }

  /** Every character of `format(x, ",")` is a digit, a comma or the sign. */
  lemma WithCommasChars(x: int)
    ensures forall k :: 0 <= k < |WithCommas(x)| ==> IsDigit(WithCommas(x)[k]) || WithCommas(x)[k] in {',', '-'}
  {
    GroupedNatLayout(if x < 0 then -x else x);
  }

  /** The comma layout of a rendered fee: the whole text for a fee that is
      not negative, the text after the minus sign otherwise. */
  lemma WithCommasLayout(x: int)
    ensures x >= 0 ==> CommaGrouped(WithCommas(x))
    ensures x < 0 ==> WithCommas(x)[0] == '-' && CommaGrouped(WithCommas(x)[1..])
  {
    if x < 0 {
      assert WithCommas(x)[1..] == GroupedNat(-x);
      GroupedNatLayout(-x);
    } else {
      GroupedNatLayout(x);
    }
  }
}
