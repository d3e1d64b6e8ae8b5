/** Values shared by the bot's modules: an optional value (JavaScript's
    `undefined`/`null` next to a present value) and the decimal text that
    JavaScript's `String(n)` gives an integer. */
module Common {

  datatype Option<+T> = None | Some(value: T)

  /** The outcome of a database query: its value, or the error it raised. */
  datatype Result<+T> = Success(value: T) | Failure(error: string)

  predicate IsDigit(c: char) { '0' <= c <= '9' }

  predicate AllDigits(s: string) { forall i :: 0 <= i < |s| ==> IsDigit(s[i]) }

  function DigitChar(d: nat): (c: char)
    requires d < 10
    ensures IsDigit(c)
  {
    ('0' as int + d) as char
  }

  function DigitValue(c: char): (d: nat)
    requires IsDigit(c)
    ensures d < 10
  {
    c as int - '0' as int
  }

  /** Decimal digits of `n`, most significant first, without leading zeros. */
  function Digits(n: nat): (s: string)
    ensures |s| >= 1 && AllDigits(s)
    ensures |s| > 1 ==> s[0] != '0'
    decreases n
  {
    if n < 10 then [DigitChar(n)] else Digits(n / 10) + [DigitChar(n % 10)]
  }

  /** The number a string of decimal digits denotes. */
  function ParseDigits(s: string): nat
    requires AllDigits(s)
    decreases |s|
  {
    if s == [] then 0 else ParseDigits(s[..|s| - 1]) * 10 + DigitValue(s[|s| - 1])
  }

  /** Reading back the digits of `n` gives `n`. */
  lemma {:induction false} ParseDigitsOfDigits(n: nat)
    ensures ParseDigits(Digits(n)) == n
    decreases n
  {
    var s := Digits(n);
    if n >= 10 {
      ParseDigitsOfDigits(n / 10);
      assert s[..|s| - 1] == Digits(n / 10);
    }
  }

  /** `String(n)` for an integer `n`: an optional minus sign, then the digits. */
  function IntText(n: int): (s: string)
  {
    if n < 0 then "-" + Digits(-n) else Digits(n)
  }

  /** Distinct integers have distinct texts, so comparing `String(n)` with a
      fixed string selects at most one integer. */
  lemma IntTextInjective(a: int, b: int)
    requires IntText(a) == IntText(b)
    ensures a == b
  {
    var s := IntText(a);
    if a < 0 {
      assert s[0] == '-';
      assert !IsDigit(s[0]);
      assert s[1..] == Digits(-a) && s[1..] == Digits(-b);
      DigitsInjective(-a, -b);
    } else {
      assert IsDigit(s[0]);
      DigitsInjective(a, b);
    }
  }

  lemma DigitsInjective(a: nat, b: nat)
    requires Digits(a) == Digits(b)
    ensures a == b
  {
    ParseDigitsOfDigits(a);
    ParseDigitsOfDigits(b);
  }

  /** `s || ""` */
  function OrEmpty(s: Option<string>): string
  {
    match s
    case None => ""
    case Some(v) => v
  }

  /** The text that `${v}` or `String(v)` gives a value that may be `undefined`. */
  function OptionalIntText(v: Option<int>): (s: string)
    ensures s != ""
  {
    match v
    case None => "undefined"
    case Some(n) => IntText(n)
  }
}
