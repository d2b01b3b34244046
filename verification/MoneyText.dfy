/** The decimal text of money: the accepted grammar, ParseMoney, Amount, and their round trips. */
module MoneyText {
  import opened Prelude
  import opened MoneyModel

  predicate IsDigit(c: char) {
    '0' <= c <= '9'
  }

  predicate AllDigits(s: string) {
    forall i | 0 <= i < |s| :: IsDigit(s[i])
  }

  /** The number a digit string denotes. */
  function Value(s: string): nat
    requires AllDigits(s)
  {
    if s == "" then 0 else Value(s[..|s| - 1]) * 10 + (s[|s| - 1] as int - '0' as int)
  }

  /** `0|[1-9][0-9]*` */
  predicate WholePart(s: string) {
    s != "" && AllDigits(s) && (s[0] == '0' ==> |s| == 1)
  }

  /** Index of the first full stop, or the length when there is none. */
  function Dot(s: string): (k: nat)
    ensures k <= |s|
    ensures k < |s| ==> s[k] == '.'
    ensures forall i | 0 <= i < k :: s[i] != '.'
  {
    if s == "" then 0 else if s[0] == '.' then 0 else 1 + Dot(s[1..])
  }

  lemma DotAt(s: string, k: nat)
    requires k <= |s| && (k < |s| ==> s[k] == '.') && forall i | 0 <= i < k :: s[i] != '.'
    ensures Dot(s) == k
  {
  }

  /** The source's amount pattern: `^(0|[1-9][0-9]*)(\.[0-9]{1,2})?$`. */
  predicate Matches(s: string) {
    var k := Dot(s);
    WholePart(s[..k]) && (k == |s| || (2 <= |s| - k <= 3 && AllDigits(s[k + 1..])))
  }

  /** The exact value of a matching string, in hundredths. */
  function Hundredths(s: string): nat
    requires Matches(s)
  {
    var k := Dot(s);
    100 * Value(s[..k]) + (if k == |s| then 0 else if |s| - k == 2 then 10 * Value(s[k + 1..]) else Value(s[k + 1..]))
  }

  /** An amount is a `0` or digits that do not begin with one, then nothing or a full stop with one or two digits. */
  ghost predicate Spells(s: string, whole: string, fraction: string) {
    && s == whole + fraction
    && whole != "" && (whole == "0" || '1' <= whole[0] <= '9') && (forall i | 0 <= i < |whole| :: '0' <= whole[i] <= '9')
    && (fraction == "" || (2 <= |fraction| <= 3 && fraction[0] == '.' && forall i | 1 <= i < |fraction| :: '0' <= fraction[i] <= '9'))
  }

  lemma MatchesExact(s: string)
    ensures Matches(s) <==> exists whole, fraction :: Spells(s, whole, fraction)
  {
    if Matches(s) {
      var k := Dot(s);
      assert s == s[..k] + s[k..];
      assert Spells(s, s[..k], s[k..]);
    }
    if whole, fraction :| Spells(s, whole, fraction) {
      DotAt(s, |whole|);
      assert s[..|whole|] == whole;
      assert fraction != "" ==> s[|whole| + 1..] == fraction[1..];
    }
  }

  lemma OneDigit(d: char)
    requires IsDigit(d)
    ensures AllDigits([d]) && Value([d]) == d as int - 48
  {
    var s: string := [d];
    assert s[..|s| - 1] == "";
  }

  lemma TwoValues(a: char, b: char)
    requires IsDigit(a) && IsDigit(b)
    ensures AllDigits([a, b]) && Value([a, b]) == 10 * (a as int - 48) + (b as int - 48)
  {
    var s: string := [a, b];
    OneDigit(a);
    assert s[..|s| - 1] == [a];
  }

  /** Its value, digit by digit. */
  lemma HundredthsExact(whole: string, d: char, a: char, b: char)
    requires Spells(whole, whole, "") && IsDigit(d) && IsDigit(a) && IsDigit(b) && whole != "0"
    ensures Matches(whole) && Matches(whole + [d]) && Hundredths(whole + [d]) == 10 * Hundredths(whole) + 100 * (d as int - 48)
    ensures Matches(whole + ['.', a]) && Hundredths(whole + ['.', a]) == Hundredths(whole) + 10 * (a as int - 48)
    ensures Matches(whole + ['.', a, b]) && Hundredths(whole + ['.', a, b]) == Hundredths(whole) + 10 * (a as int - 48) + (b as int - 48)
  {
    var n := |whole|;
    var more, tenths, cents := whole + [d], whole + ['.', a], whole + ['.', a, b];
    DotAt(whole, n);
    DotAt(more, n + 1);
    DotAt(tenths, n);
    DotAt(cents, n);
    assert whole[..n] == whole && more[..n + 1] == more && more[..n] == whole;
    assert tenths[..n] == whole && tenths[n + 1..] == [a];
    assert cents[..n] == whole && cents[n + 1..] == [a, b];
    OneDigit(a);
    TwoValues(a, b);
  }

  lemma DigitExact(d: char)
    requires IsDigit(d)
    ensures Matches([d]) && Hundredths([d]) == 100 * (d as int - 48)
  {
    var s: string := [d];
    DotAt(s, 1);
    OneDigit(d);
    assert s[..1] == s;
  }

  /** What ParseMoney promises, stated without its steps. */
  function Parsed(amount: string, currency: string): Result<Money> {
    if !ValidCurrency(currency) || !Matches(amount) then Err(InvalidMoney)
    else if Hundredths(amount) > MAX_INT64 then Err(Overflow)
    else Ok(Money(Hundredths(amount), currency))
  }

  /** strconv.ParseInt(s, 10, 64) on a digit string. */
  function ParseInt(s: string): Result<int64>
    requires AllDigits(s)
  {
    if Value(s) > MAX_INT64 then Err(Overflow) else Ok(Value(s))
  }

  lemma ShortValue(s: string)
    requires AllDigits(s) && 1 <= |s| <= 2
    ensures Value(s) <= 99
    ensures |s| == 1 ==> Value(s + "0") == 10 * Value(s)
  {
    assert Value(s[..|s| - 1]) <= 9 by {
      if |s| == 2 {
        assert s[..1][..0] == "";
      }
    }
    if |s| == 1 {
      assert (s + "0")[..1] == s && s[..0] == "";
    }
  }

  method ParseMoney(amount: string, currency: string) returns (r: Result<Money>)
    ensures r == Parsed(amount, currency)
  {
    if !ValidCurrency(currency) || !Matches(amount) {
      return Err(InvalidMoney);
    }
    var whole, fraction := "", "";
    var i := 0;
    while i < |amount|
      invariant 0 <= i <= |amount| && whole == "" && fraction == ""
      invariant forall j | 0 <= j < i :: amount[j] != '.'
    {
      if amount[i] == '.' {
        whole, fraction := amount[..i], amount[i + 1..];
        break;
      }
      i := i + 1;
    }
    DotAt(amount, i);
    if whole == "" {
      assert amount[..i] == amount;
      whole := amount;
    }
    if fraction != "" {
      ShortValue(fraction);
    }
    if |fraction| == 1 {
      fraction := fraction + "0";
    }
    var w := ParseInt(whole);
    if w.Err? || w.value > MAX_INT64 / 100 {
      return Err(Overflow);
    }
    var f: int64 := 0;
    if fraction != "" {
      f := ParseInt(fraction).value;
    }
    if w.value == MAX_INT64 / 100 && f > MAX_INT64 % 100 {
      return Err(Overflow);
    }
    r := Ok(Money(w.value * 100 + f, currency));
  }

  /** Go's `/` and `%` truncate toward zero. */
  function TruncDiv(a: int, b: int): int
    requires b > 0
  {
    if a >= 0 then a / b else -((-a) / b)
  }

  function TruncMod(a: int, b: int): int
    requires b > 0
  {
    a - b * TruncDiv(a, b)
  }

  function Digit(n: nat): (c: char)
    requires n < 10
    ensures IsDigit(c) && c as int - '0' as int == n
  {
    (n + '0' as int) as char
  }

  /** `%d` of a non-negative number. */
  function Decimal(n: nat): (s: string)
    ensures WholePart(s) && Value(s) == n
    ensures n > 0 ==> s[0] != '0'
  {
    if n < 10 then
      var s := [Digit(n)];
      assert s[..0] == "";
      s
    else
      var p := Decimal(n / 10);
      var s := p + [Digit(n % 10)];
      assert s[..|s| - 1] == p;
      s
  }

  /** `%02d` of a number below one hundred. */
  function TwoDigits(n: nat): (s: string)
    requires n < 100
    ensures |s| == 2 && AllDigits(s) && Value(s) == n
  {
    var s := [Digit(n / 10), Digit(n % 10)];
    assert s[..1] == [Digit(n / 10)] && s[..1][..0] == "";
    assert Value(s[..1]) == n / 10;
    s
  }

  function Unsigned(whole: nat, cents: nat): string
    requires cents < 100
  {
    Decimal(whole) + "." + TwoDigits(cents)
  }

  function Amount(m: Money): Result<string> {
    if !m.Valid() then
      Err(InvalidMoney)
    else if m.minor < 0 then
      Ok("-" + Unsigned(-TruncDiv(m.minor, 100), -TruncMod(m.minor, 100)))
    else
      Ok(Unsigned(TruncDiv(m.minor, 100), TruncMod(m.minor, 100)))
  }

  /** The text always matches the grammar and denotes exactly the amount it was made from. */
  lemma UnsignedExact(whole: nat, cents: nat)
    requires cents < 100
    ensures Matches(Unsigned(whole, cents)) && Hundredths(Unsigned(whole, cents)) == 100 * whole + cents
  {
    var w, s := Decimal(whole), Unsigned(whole, cents);
    DotAt(s, |w|);
    assert s[..|w|] == w && s[|w| + 1..] == TwoDigits(cents);
  }

  /** Truncating division splits every int64, the minimum included, into its absolute value's parts. */
  lemma TruncExact(x: int)
    ensures x >= 0 ==> 100 * TruncDiv(x, 100) + TruncMod(x, 100) == x && 0 <= TruncMod(x, 100) < 100 && TruncDiv(x, 100) >= 0
    ensures x < 0 ==> 100 * -TruncDiv(x, 100) + -TruncMod(x, 100) == -x && 0 <= -TruncMod(x, 100) < 100 && TruncDiv(x, 100) <= 0
  {
  }

  lemma AmountExact(m: Money)
    requires m.Valid()
    ensures Amount(m).Ok?
    ensures m.minor >= 0 ==> Matches(Amount(m).value) && Hundredths(Amount(m).value) == m.minor
    ensures m.minor < 0 ==> var t := Amount(m).value;
            t != "" && t[0] == '-' && Matches(t[1..]) && Hundredths(t[1..]) + m.minor == 0
  {
    TruncExact(m.minor);
    if m.minor >= 0 {
      UnsignedExact(TruncDiv(m.minor, 100), TruncMod(m.minor, 100));
    } else {
      var u := Unsigned(-TruncDiv(m.minor, 100), -TruncMod(m.minor, 100));
      UnsignedExact(-TruncDiv(m.minor, 100), -TruncMod(m.minor, 100));
      assert ("-" + u)[1..] == u;
    }
  }

  predicate TwoDecimals(s: string) {
    |s| >= 4 && s[|s| - 3] == '.'
  }

  lemma UnsignedDecimals(whole: nat, cents: nat)
    requires cents < 100
    ensures TwoDecimals(Unsigned(whole, cents)) && TwoDecimals("-" + Unsigned(whole, cents))
  {
    var s := Unsigned(whole, cents);
    assert s[|Decimal(whole)|] == '.' && ("-" + s)[|Decimal(whole)| + 1] == '.';
  }

  /** The text always has two decimals. */
  lemma AmountDecimals(m: Money)
    requires m.Valid()
    ensures Amount(m).Ok? && TwoDecimals(Amount(m).value)
  {
    TruncExact(m.minor);
    if m.minor >= 0 {
      UnsignedDecimals(TruncDiv(m.minor, 100), TruncMod(m.minor, 100));
    } else {
      UnsignedDecimals(-TruncDiv(m.minor, 100), -TruncMod(m.minor, 100));
    }
  }

  lemma ParseOfAmount(m: Money)
    requires m.Valid() && m.minor >= 0
    ensures Amount(m).Ok? && Parsed(Amount(m).value, m.currency) == Ok(m)
  {
    AmountExact(m);
  }

  /** Two int64 amounts of one currency with the same text are equal. */
  lemma AmountInjective(m: Money, n: Money)
    requires m.Valid() && n.Valid() && m.currency == n.currency && Amount(m) == Amount(n)
    ensures m == n
  {
    AmountExact(m);
    AmountExact(n);
    if m.minor >= 0 {
      MatchesStartsWithDigit(Amount(m).value);
    }
    if n.minor >= 0 {
      MatchesStartsWithDigit(Amount(n).value);
    }
  }

  lemma MatchesStartsWithDigit(s: string)
    requires Matches(s)
    ensures s != "" && s[0] != '-'
  {
    assert s[..Dot(s)][0] == s[0];
  }

  /** A negative amount's text is never accepted back: external money is non-negative. */
  lemma NegativeTextRejected(m: Money)
    requires m.Valid() && m.minor < 0
    ensures Amount(m).Ok? && Parsed(Amount(m).value, m.currency) == Err(InvalidMoney)
  {
    AmountExact(m);
    if Matches(Amount(m).value) {
      MatchesStartsWithDigit(Amount(m).value);
    }
  }

  /** Accepted spellings normalise to one text exactly when they denote one value. */
  lemma SpellingsShareOneText(a: string, b: string, currency: string)
    requires Parsed(a, currency).Ok? && Parsed(b, currency).Ok?
    ensures Amount(Parsed(a, currency).value) == Amount(Parsed(b, currency).value) <==> Hundredths(a) == Hundredths(b)
  {
    var m, n := Parsed(a, currency).value, Parsed(b, currency).value;
    if Amount(m) == Amount(n) {
      AmountInjective(m, n);
    }
  }
}
