/**
 * The two text renderings the pipeline produces: Python's str() of an integer
 * (the trip identifier's parts) and strftime("%Y-%m-%dT%H:%M:%S") of a
 * position timestamp (the message payload). Each comes with the parser that
 * inverts it, and the round trip between the two is proved.
 */
module Text {
  import opened Values

  predicate IsDigit(c: char) {
    '0' <= c <= '9'
  }

  predicate AllDigits(s: string) {
    forall k :: 0 <= k < |s| ==> IsDigit(s[k])
  }

  function DigitValue(c: char): (d: nat)
    requires IsDigit(c)
    ensures d < 10
  {
    c as int - '0' as int
  }

  function DigitChar(d: nat): (c: char)
    requires d < 10
    ensures IsDigit(c) && DigitValue(c) == d
  {
    ('0' as int + d) as char
  }

  lemma DigitCharOfValue(c: char)
    requires IsDigit(c)
    ensures DigitChar(DigitValue(c)) == c
  {
  }

  /** The number a string of decimal digits denotes, most significant digit first. */
  function DigitsValue(s: string): nat
    requires AllDigits(s)
  {
    if s == [] then 0 else DigitsValue(s[..|s| - 1]) * 10 + DigitValue(s[|s| - 1])
  }

  /** Decimal digits of n with no leading zero ("0" for zero). */
  function NatText(n: nat): (s: string)
    ensures |s| >= 1 && AllDigits(s)
    ensures s[0] == '0' <==> n == 0
    ensures n < 10 <==> |s| == 1
  {
    if n < 10 then [DigitChar(n)] else NatText(n / 10) + [DigitChar(n % 10)]
  }

  /** Python's str() of an int: a minus sign for negative numbers, then the digits. */
  function Decimal(i: int): (s: string)
    ensures |s| >= 1
    ensures s[0] == '-' <==> i < 0
    ensures Canonical(if i < 0 then s[1..] else s)
  {
    if i < 0 then "-" + NatText(-i) else NatText(i)
  }

  /** Digits with no leading zero, or the single digit "0". */
  predicate Canonical(s: string) {
    |s| >= 1 && AllDigits(s) && (s[0] == '0' ==> |s| == 1)
  }

  /** Reads back the text Decimal produces; any other text is rejected. */
  function ParseDecimal(s: string): Option<int> {
    if |s| >= 2 && s[0] == '-' && Canonical(s[1..]) && s[1] != '0' then Some(-(DigitsValue(s[1..]) as int))
    else if Canonical(s) then Some(DigitsValue(s))
    else None
  }

  lemma {:induction false} NatTextValue(n: nat)
    ensures DigitsValue(NatText(n)) == n
  {
    if n >= 10 {
      var p := NatText(n / 10);
      var s := p + [DigitChar(n % 10)];
      assert s[..|s| - 1] == p;
      NatTextValue(n / 10);
    }
  }

  lemma {:induction false} LeadingDigitPositive(s: string)
    requires |s| >= 1 && AllDigits(s) && s[0] != '0'
    ensures DigitsValue(s) > 0
  {
    if |s| > 1 {
      LeadingDigitPositive(s[..|s| - 1]);
    }
  }

  lemma {:induction false} NatTextOfValue(s: string)
    requires Canonical(s)
    ensures NatText(DigitsValue(s)) == s
  {
    var p := s[..|s| - 1];
    var c := s[|s| - 1];
    DigitCharOfValue(c);
    if |s| == 1 {
      assert s == [c];
    } else {
      assert p[0] == s[0];
      LeadingDigitPositive(p);
      NatTextOfValue(p);
      assert s == p + [c];
    }
  }

  /** Decimal text reads back as the integer it was made from. */
  lemma DecimalRoundTrip(i: int)
    ensures ParseDecimal(Decimal(i)) == Some(i)
  {
    if i < 0 {
      var t := NatText(-i);
      var s := "-" + t;
      assert s[1..] == t && s[1] == t[0];
      assert Canonical(t);
      NatTextValue(-i);
    } else {
      NatTextValue(i);
    }
  }

  /** Conversely, every text ParseDecimal accepts is exactly the Decimal text of its value. */
  lemma DecimalCanonical(s: string)
    requires ParseDecimal(s).Some?
    ensures Decimal(ParseDecimal(s).value) == s
  {
    if |s| >= 2 && s[0] == '-' && Canonical(s[1..]) && s[1] != '0' {
      LeadingDigitPositive(s[1..]);
      NatTextOfValue(s[1..]);
      assert s == "-" + s[1..];
    } else {
      NatTextOfValue(s);
    }
  }

  function Pow10(w: nat): (p: nat)
    ensures p >= 1
  {
    if w == 0 then 1 else 10 * Pow10(w - 1)
  }

  /** The w lowest decimal digits of n, zero-padded on the left (a strftime field). */
  function Padded(n: nat, w: nat): (s: string)
    ensures |s| == w && AllDigits(s)
  {
    if w == 0 then [] else Padded(n / 10, w - 1) + [DigitChar(n % 10)]
  }

  lemma {:induction false} PaddedValue(n: nat, w: nat)
    requires n < Pow10(w)
    ensures DigitsValue(Padded(n, w)) == n
  {
    if w > 0 {
      var s := Padded(n, w);
      assert s[..|s| - 1] == Padded(n / 10, w - 1);
      PaddedValue(n / 10, w - 1);
    }
  }

  /** The calendar fields a "%Y-%m-%dT%H:%M:%S" string shows. */
  datatype Clock = Clock(year: nat, month: nat, day: nat, hour: nat, minute: nat, second: nat)

  function ClockOf(t: Instant): Clock {
    Clock(t.year, t.month, t.day, t.hour, t.minute, t.second)
  }

  /** The fields of a "%Y-%m-%dT%H:%M:%S" string sit at fixed offsets. */
  function IsoLayout(year: string, month: string, day: string, hour: string, minute: string, second: string): (s: string)
    requires |year| == 4 && |month| == 2 && |day| == 2 && |hour| == 2 && |minute| == 2 && |second| == 2
    ensures |s| == 19
    ensures s[4] == '-' && s[7] == '-' && s[10] == 'T' && s[13] == ':' && s[16] == ':'
    ensures s[0..4] == year && s[5..7] == month && s[8..10] == day
    ensures s[11..13] == hour && s[14..16] == minute && s[17..19] == second
  {
    var s := year + "-" + month + "-" + day + "T" + hour + ":" + minute + ":" + second;
    assert s[0..4] == year;
    assert s[5..7] == month;
    assert s[8..10] == day;
    assert s[11..13] == hour;
    assert s[14..16] == minute;
    assert s[17..19] == second;
    s
  }

  /**
   * strftime("%Y-%m-%dT%H:%M:%S"): nineteen characters, zero-padded fields,
   * '-' '-' 'T' ':' ':' at fixed positions; the nanoseconds are not shown.
   */
  function IsoSeconds(t: Instant): (s: string)
    ensures |s| == 19
    ensures s[4] == '-' && s[7] == '-' && s[10] == 'T' && s[13] == ':' && s[16] == ':'
    ensures AllDigits(s[0..4]) && AllDigits(s[5..7]) && AllDigits(s[8..10])
    ensures AllDigits(s[11..13]) && AllDigits(s[14..16]) && AllDigits(s[17..19])
  {
    IsoLayout(Padded(t.year, 4), Padded(t.month, 2), Padded(t.day, 2),
           Padded(t.hour, 2), Padded(t.minute, 2), Padded(t.second, 2))
  }

  /** Reads the calendar fields back from a "%Y-%m-%dT%H:%M:%S" string. */
  function ParseIsoSeconds(s: string): Option<Clock> {
    if && |s| == 19
       && s[4] == '-' && s[7] == '-' && s[10] == 'T' && s[13] == ':' && s[16] == ':'
       && AllDigits(s[0..4]) && AllDigits(s[5..7]) && AllDigits(s[8..10])
       && AllDigits(s[11..13]) && AllDigits(s[14..16]) && AllDigits(s[17..19])
    then Some(Clock(DigitsValue(s[0..4]), DigitsValue(s[5..7]), DigitsValue(s[8..10]),
                    DigitsValue(s[11..13]), DigitsValue(s[14..16]), DigitsValue(s[17..19])))
    else None
  }

  /** The rendered string gives back every calendar field of the instant. */
  lemma IsoSecondsRoundTrip(t: Instant)
    ensures ParseIsoSeconds(IsoSeconds(t)) == Some(ClockOf(t))
  {
    assert Pow10(4) == 10000 && Pow10(2) == 100;
    PaddedValue(t.year, 4);
    PaddedValue(t.month, 2);
    PaddedValue(t.day, 2);
    PaddedValue(t.hour, 2);
    PaddedValue(t.minute, 2);
    PaddedValue(t.second, 2);
  }

  /** Two instants render alike exactly when they agree to the second. */
  lemma IsoSecondsInjective(t: Instant, u: Instant)
    ensures IsoSeconds(t) == IsoSeconds(u) <==> ClockOf(t) == ClockOf(u)
  {
    if IsoSeconds(t) == IsoSeconds(u) {
      IsoSecondsRoundTrip(t);
      IsoSecondsRoundTrip(u);
    }
  }
}
