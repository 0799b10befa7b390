/**
 * The wait status of an end line (src/root_v1.rs:702-709): `code:` or `signal:` followed by what
 * `i32::from_str` accepts. The parser is proved against the decimal rendering of integers.
 */
module WaitStatus {

  import opened Options

  datatype Wait = ExitCode(code: int) | Signal(signal: int)

  // ---------------------------------------------------------------- decimal notation

  function Digit(d: int): char
    requires 0 <= d < 10
  {
    ['0', '1', '2', '3', '4', '5', '6', '7', '8', '9'][d]
  }

  function Decimal(n: nat): string {
    if n < 10 then [Digit(n)] else Decimal(n / 10) + [Digit(n % 10)]
  }

  function Zeros(k: nat): string {
    if k == 0 then "" else "0" + Zeros(k - 1)
  }

  /** `n` in decimal, leading zeros allowed. */
  ghost predicate Numeral(s: string, n: nat) {
    exists k: nat :: s == Zeros(k) + Decimal(n)
  }

  /** A 32-bit integer in decimal, with an optional sign. */
  ghost predicate Denotes(s: string, v: int) {
    && -0x8000_0000 <= v < 0x8000_0000
    && (|| (v >= 0 && Numeral(s, v))
        || (v >= 0 && "+" <= s && Numeral(s[1..], v))
        || (v <= 0 && "-" <= s && Numeral(s[1..], -v)))
  }

  /** What a status text says. */
  ghost predicate Says(status: string, w: Wait) {
    match w
    case ExitCode(code) => "code:" <= status && Denotes(status[5..], code)
    case Signal(signal) => "signal:" <= status && Denotes(status[7..], signal)
  }

  // ---------------------------------------------------------------- the parser

  function Digits(s: string): Option<nat> {
    if s == "" then None
    else if !('0' <= s[|s| - 1] <= '9') then None
    else
      var low := s[|s| - 1] as int - '0' as int;
      if |s| == 1 then Some(low)
      else match Digits(s[..|s| - 1])
        case None => None
        case Some(high) => Some(high * 10 + low)
  }

  function ParseI32(s: string): Option<int> {
    var signed := s != "" && (s[0] == '-' || s[0] == '+');
    match Digits(if signed then s[1..] else s)
    case None => None
    case Some(n) =>
      var v: int := if signed && s[0] == '-' then 0 - n else n;
      if -0x8000_0000 <= v < 0x8000_0000 then Some(v) else None
  }

  /** `code:N` or `signal:N`. */
  function Parse(status: string): Option<Wait> {
    if "code:" <= status then
      match ParseI32(status[5..])
      case None => None
      case Some(n) => Some(ExitCode(n))
    else if "signal:" <= status then
      match ParseI32(status[7..])
      case None => None
      case Some(n) => Some(Signal(n))
    else None
  }

  // ---------------------------------------------------------------- the parser reads decimal notation

  lemma DigitValue(d: int, c: char)
    ensures 0 <= d < 10 ==> '0' <= Digit(d) <= '9' && Digit(d) as int - '0' as int == d
    ensures '0' <= c <= '9' ==> 0 <= c as int - '0' as int < 10 && Digit(c as int - '0' as int) == c
  {
  }

  lemma DigitsOfMore(s: string, low: nat)
    requires Digits(s).Some? && low < 10
    ensures Digits(s + [Digit(low)]) == Some(Digits(s).value * 10 + low)
  {
    DigitValue(low, '0');
    var t := s + [Digit(low)];
    assert t[..|t| - 1] == s && t[|t| - 1] == Digit(low);
  }

  lemma {:induction false} DigitsOfDecimal(n: nat)
    ensures Digits(Decimal(n)) == Some(n) && Decimal(n) != ""
  {
    DigitValue(n % 10, '0');
    if n >= 10 {
      DigitsOfDecimal(n / 10);
      DigitsOfMore(Decimal(n / 10), n % 10);
    }
  }

  /** A leading zero changes nothing. */
  lemma {:induction false} DigitsAfterZero(s: string)
    requires Digits(s).Some?
    ensures Digits("0" + s) == Digits(s)
    decreases |s|
  {
    var t := "0" + s;
    assert t[..|t| - 1] == "0" + s[..|s| - 1];
    if |s| == 1 {
      assert "0" + s[..0] == "0";
      assert Digits("0") == Some(0);
    } else {
      DigitsAfterZero(s[..|s| - 1]);
    }
  }

  lemma OneMoreZero(k: nat, t: string)
    requires k > 0
    ensures Zeros(k) + t == "0" + (Zeros(k - 1) + t)
  {
  }

  lemma {:induction false} DigitsAfterZeros(k: nat, t: string)
    requires Digits(t).Some?
    ensures Digits(Zeros(k) + t) == Digits(t)
  {
    if k == 0 {
      assert Zeros(0) + t == t;
    } else {
      DigitsAfterZeros(k - 1, t);
      DigitsAfterZero(Zeros(k - 1) + t);
      OneMoreZero(k, t);
    }
  }

  /** One more digit after a numeral. */
  lemma NumeralOfMore(k: nat, high: nat, low: nat) returns (k': nat)
    requires low < 10
    ensures Zeros(k) + Decimal(high) + [Digit(low)] == Zeros(k') + Decimal(high * 10 + low)
  {
    if high == 0 {
      k' := k + 1;
      ZerosAtTheEnd(k);
      assert Decimal(0) == "0" && Decimal(low) == [Digit(low)];
    } else {
      k' := k;
      DecimalOfMore(high, low);
      assert Zeros(k) + Decimal(high) + [Digit(low)] == Zeros(k) + (Decimal(high) + [Digit(low)]);
    }
  }

  lemma DecimalOfMore(high: nat, low: nat)
    requires 0 < high && low < 10
    ensures Decimal(high * 10 + low) == Decimal(high) + [Digit(low)]
  {
  }

  lemma LastDigit(s: string) returns (low: nat)
    requires Digits(s).Some?
    ensures low < 10 && s == s[..|s| - 1] + [Digit(low)]
    ensures |s| == 1 ==> Digits(s).value == low
    ensures |s| > 1 ==> Digits(s[..|s| - 1]).Some? && Digits(s).value == Digits(s[..|s| - 1]).value * 10 + low
  {
    low := s[|s| - 1] as int - '0' as int;
    DigitValue(0, s[|s| - 1]);
  }

  /** Every accepted digit string is a numeral of its value. */
  lemma {:induction false} DigitsAreANumeral(s: string) returns (k: nat)
    requires Digits(s).Some?
    ensures s == Zeros(k) + Decimal(Digits(s).value)
    decreases |s|
  {
    var low := LastDigit(s);
    if |s| == 1 {
      k := 0;
      assert Decimal(low) == [Digit(low)];
    } else {
      k := DigitsAreANumeral(s[..|s| - 1]);
      k := NumeralOfMore(k, Digits(s[..|s| - 1]).value, low);
    }
  }

  lemma {:induction false} ZerosAtTheEnd(k: nat)
    ensures Zeros(k) + "0" == Zeros(k + 1)
  {
    if k > 0 {
      ZerosAtTheEnd(k - 1);
      assert Zeros(k) + "0" == "0" + (Zeros(k - 1) + "0");
    }
  }

  lemma NumeralExactly(s: string, n: nat)
    ensures Digits(s) == Some(n) <==> Numeral(s, n)
  {
    if Digits(s) == Some(n) {
      var k := DigitsAreANumeral(s);
    }
    if k: nat :| s == Zeros(k) + Decimal(n) {
      DigitsOfDecimal(n);
      DigitsAfterZeros(k, Decimal(n));
    }
  }

  /** A sign is no digit. */
  lemma {:induction false} SignIsNoDigit(s: string)
    requires s != "" && (s[0] == '-' || s[0] == '+')
    ensures Digits(s).None?
    decreases |s|
  {
    if |s| > 1 {
      SignIsNoDigit(s[..|s| - 1]);
    }
  }

  predicate Signed(s: string) {
    s != "" && (s[0] == '-' || s[0] == '+')
  }

  lemma UnsignedExactly(s: string, v: int)
    requires !Signed(s)
    ensures ParseI32(s) == Some(v) <==> Denotes(s, v)
  {
    if v >= 0 {
      NumeralExactly(s, v);
    }
  }

  lemma SignedExactly(s: string, v: int)
    requires Signed(s)
    ensures ParseI32(s) == Some(v) <==> Denotes(s, v)
  {
    SignIsNoDigit(s);
    if v >= 0 {
      NumeralExactly(s, v);
      NumeralExactly(s[1..], v);
    }
    if v <= 0 {
      NumeralExactly(s[1..], -v);
    }
  }

  lemma ParsedExactly(s: string, v: int)
    ensures ParseI32(s) == Some(v) <==> Denotes(s, v)
  {
    if Signed(s) {
      SignedExactly(s, v);
    } else {
      UnsignedExactly(s, v);
    }
  }

  /** The parser reports a wait exactly when the status says so. */
  lemma ParseExactly(status: string, w: Wait)
    ensures Parse(status) == Some(w) <==> Says(status, w)
  {
    assert "code:" <= status ==> status[0] == 'c';
    assert "signal:" <= status ==> status[0] == 's';
    if "code:" <= status {
      ParsedExactly(status[5..], if w.ExitCode? then w.code else 0);
    }
    if "signal:" <= status {
      ParsedExactly(status[7..], if w.Signal? then w.signal else 0);
    }
  }

  /** An integer in decimal. */
  function Rendered(n: int): string {
    if n < 0 then "-" + Decimal(-n) else Decimal(n)
  }

  /** Every 32-bit status is read back as what was rendered. */
  lemma RenderedIsRead(n: int)
    requires -0x8000_0000 <= n < 0x8000_0000
    ensures Parse("code:" + Rendered(n)) == Some(ExitCode(n))
    ensures Parse("signal:" + Rendered(n)) == Some(Signal(n))
  {
    var t := Rendered(n);
    if n >= 0 {
      assert t == Zeros(0) + Decimal(n);
    } else {
      assert t[1..] == Zeros(0) + Decimal(-n);
    }
    assert Denotes(t, n);
    assert ("code:" + t)[5..] == t && ("signal:" + t)[7..] == t;
    ParseExactly("code:" + t, ExitCode(n));
    ParseExactly("signal:" + t, Signal(n));
  }
}
