/**
 * Well-formed UTF-8 as `std::str::from_utf8` reports it: how far a byte string is valid, and whether
 * what follows is an error or only the start of a character. The scan by byte ranges (section 4 of
 * RFC 3629) is proved against the encoding of scalar values by arithmetic (section 3).
 */
module Utf8 {
  import opened Base64

  // ---------------------------------------------------------------- the encoding

  /** A Unicode scalar value: no surrogate, nothing above U+10FFFF. */
  type Scalar = c: int | 0 <= c <= 0x10FFFF && !(0xD800 <= c <= 0xDFFF)

  /** One to four bytes, the value's bits in groups of six behind a lead byte that tells how many. */
  function EncodeScalar(c: Scalar): (b: seq<Byte>)
    ensures 1 <= |b| <= 4
  {
    if c < 0x80 then [c]
    else if c < 0x800 then [0xC0 + c / 64, 0x80 + c % 64]
    else if c < 0x1_0000 then [0xE0 + c / 64 / 64, 0x80 + c / 64 % 64, 0x80 + c % 64]
    else [0xF0 + c / 64 / 64 / 64, 0x80 + c / 64 / 64 % 64, 0x80 + c / 64 % 64, 0x80 + c % 64]
  }

  function EncodeText(cs: seq<Scalar>): seq<Byte> {
    if cs == [] then [] else EncodeScalar(cs[0]) + EncodeText(cs[1..])
  }

  /** The bytes are the encoding of some text. */
  ghost predicate IsText(s: seq<Byte>) {
    exists cs: seq<Scalar> :: s == EncodeText(cs)
  }

  /** The bytes are the beginning, and not all, of some character. */
  ghost predicate BeginsCharacter(s: seq<Byte>) {
    exists c: Scalar :: s < EncodeScalar(c)
  }

  // ---------------------------------------------------------------- the scan

  datatype Head = Character(len: nat) | Unfinished | Malformed

  /** How many bytes the lead byte announces; zero for a byte that starts nothing. */
  function Announced(lead: Byte): nat {
    if lead < 0x80 then 1
    else if 0xC2 <= lead <= 0xDF then 2
    else if 0xE0 <= lead <= 0xEF then 3
    else if 0xF0 <= lead <= 0xF4 then 4
    else 0
  }

  /** The second byte's range excludes overlong forms, surrogates and values above U+10FFFF. */
  predicate SecondOk(lead: Byte, second: Byte) {
    (if lead == 0xE0 then 0xA0 else if lead == 0xF0 then 0x90 else 0x80) <= second
      <= (if lead == 0xED then 0x9F else if lead == 0xF4 then 0x8F else 0xBF)
  }

  predicate Continues(b: Byte) {
    0x80 <= b <= 0xBF
  }

  /** The character a non-empty byte string starts with. */
  function HeadOf(s: seq<Byte>): (h: Head)
    requires s != []
    ensures h.Character? ==> 1 <= h.len <= 4 && h.len <= |s|
  {
    var n := Announced(s[0]);
    if n == 0 then Malformed
    else if n == 1 then Character(1)
    else if |s| < 2 then Unfinished
    else if !SecondOk(s[0], s[1]) then Malformed
    else if n == 2 then Character(2)
    else if |s| < 3 then Unfinished
    else if !Continues(s[2]) then Malformed
    else if n == 3 then Character(3)
    else if |s| < 4 then Unfinished
    else if !Continues(s[3]) then Malformed
    else Character(4)
  }

  /** `ValidUpTo(n, true)` ends inside a character, `ValidUpTo(n, false)` at an error. */
  datatype Scan = AllValid | ValidUpTo(at: nat, unfinished: bool)

  function Further(n: nat, rest: Scan): Scan {
    if rest.AllValid? then AllValid else ValidUpTo(n + rest.at, rest.unfinished)
  }

  function Check(s: seq<Byte>): Scan {
    if s == [] then AllValid
    else match HeadOf(s)
      case Unfinished => ValidUpTo(0, true)
      case Malformed => ValidUpTo(0, false)
      case Character(n) => Further(n, Check(s[n..]))
  }

  predicate Valid(s: seq<Byte>) {
    Check(s) == AllValid
  }

  /** A cut inside a character leaves it unfinished; a cut after it leaves it alone. */
  lemma HeadOfPrefix(s: seq<Byte>, k: nat)
    requires s != [] && 1 <= k <= |s| && HeadOf(s).Character?
    ensures HeadOf(s[..k]) == if k < HeadOf(s).len then Unfinished else HeadOf(s)
  {
  }

  /** The valid part of any byte string is valid, and lies within it. */
  lemma {:induction false} ValidPartIsValid(s: seq<Byte>)
    ensures Check(s).ValidUpTo? ==> Check(s).at <= |s| && Valid(s[..Check(s).at])
    ensures Check(s).ValidUpTo? && Check(s).unfinished ==> |s| - Check(s).at <= 3
  {
    if s != [] && HeadOf(s).Character? {
      var n := HeadOf(s).len;
      ValidPartIsValid(s[n..]);
      if Check(s[n..]).ValidUpTo? {
        var at := Check(s[n..]).at;
        HeadOfPrefix(s, n + at);
        assert s[..n + at][n..] == s[n..][..at];
      }
    }
  }

  /** Cutting valid text leaves valid text and at most three bytes of an unfinished character. */
  lemma {:induction false} CutOfValid(s: seq<Byte>, k: nat)
    requires Valid(s) && k <= |s|
    ensures Check(s[..k]).ValidUpTo? ==> Check(s[..k]).unfinished
  {
    if k > 0 {
      var n := HeadOf(s).len;
      HeadOfPrefix(s, k);
      if n <= k {
        CutOfValid(s[n..], k - n);
        assert s[..k][n..] == s[n..][..k - n];
      }
    }
  }

  /** No longer prefix is valid. */
  lemma {:induction false} ValidPartIsLongest(s: seq<Byte>, k: nat)
    requires Check(s).ValidUpTo? && k <= |s| && Valid(s[..k])
    ensures k <= Check(s).at
  {
    if k > 0 {
      var p := s[..k];
      assert HeadOf(p).Character?;
      HeadOfExtended(p, s);
      var n := HeadOf(s).len;
      assert p[n..] == s[n..][..k - n];
      ValidPartIsLongest(s[n..], k - n);
    }
  }

  lemma HeadOfExtended(p: seq<Byte>, s: seq<Byte>)
    requires p != [] && p <= s && HeadOf(p).Character?
    ensures HeadOf(s) == HeadOf(p)
  {
  }

  // ---------------------------------------------------------------- scan and encoding agree

  /** Every encoding is scanned as one character. */
  lemma EncodedIsACharacter(c: Scalar)
    ensures HeadOf(EncodeScalar(c)) == Character(|EncodeScalar(c)|)
  {
    var q := c / 64;
    var r := q / 64;
    if 0x800 <= c < 0x1_0000 {
      ThreeByteRange(c, q, r);
    } else if c >= 0x1_0000 {
      FourByteRange(c, q, r, r / 64);
    }
  }

  lemma ThreeByteRange(c: Scalar, q: int, r: int)
    requires 0x800 <= c < 0x1_0000 && q == c / 64 && r == q / 64
    ensures 0 <= r <= 15 && (r == 0 ==> q % 64 >= 32) && (r == 13 ==> q % 64 < 32)
  {
    assert q == 64 * r + q % 64;
    assert c == 64 * q + c % 64;
  }

  lemma FourByteRange(c: Scalar, q: int, r: int, t: int)
    requires c >= 0x1_0000 && q == c / 64 && r == q / 64 && t == r / 64
    ensures 0 <= t <= 4 && (t == 0 ==> r % 64 >= 16) && (t == 4 ==> r % 64 < 16)
  {
    assert r == 64 * t + r % 64;
    assert q == 64 * r + q % 64;
    assert c == 64 * q + c % 64;
  }

  /** Six more bits, from a continuation byte. */
  function Add(high: int, b: Byte): int {
    high * 64 + (b as int - 0x80)
  }

  lemma AddSplits(high: int, b: Byte)
    requires Continues(b)
    ensures Add(high, b) / 64 == high && 0x80 + Add(high, b) % 64 == b
  {
  }

  /** The value whose encoding a scanned character is. */
  function ValueOf(s: seq<Byte>): int
    requires s != [] && HeadOf(s).Character?
  {
    var lead := s[0] as int;
    match HeadOf(s).len
    case 1 => lead
    case 2 => Add(lead - 0xC0, s[1])
    case 3 => Add(Add(lead - 0xE0, s[1]), s[2])
    case _ => Add(Add(Add(lead - 0xF0, s[1]), s[2]), s[3])
  }

  lemma ValueIsScalar(s: seq<Byte>)
    requires s != [] && HeadOf(s).Character?
    ensures var v, n := ValueOf(s), HeadOf(s).len;
            && 0 <= v <= 0x10FFFF && !(0xD800 <= v <= 0xDFFF)
            && n == if v < 0x80 then 1 else if v < 0x800 then 2 else if v < 0x1_0000 then 3 else 4
  {
  }

  /** Every scanned character is the encoding of a scalar value. */
  lemma CharacterIsEncoded(s: seq<Byte>) returns (c: Scalar)
    requires s != [] && HeadOf(s).Character?
    ensures EncodeScalar(c) == s[..HeadOf(s).len]
  {
    var n, lead := HeadOf(s).len, s[0] as int;
    ValueIsScalar(s);
    c := ValueOf(s);
    if n == 2 {
      AddSplits(lead - 0xC0, s[1]);
    } else if n == 3 {
      AddSplits(lead - 0xE0, s[1]);
      AddSplits(Add(lead - 0xE0, s[1]), s[2]);
    } else if n == 4 {
      AddSplits(lead - 0xF0, s[1]);
      AddSplits(Add(lead - 0xF0, s[1]), s[2]);
      AddSplits(Add(Add(lead - 0xF0, s[1]), s[2]), s[3]);
    }
  }

  lemma {:induction false} TextIsValid(cs: seq<Scalar>)
    ensures Valid(EncodeText(cs))
  {
    if cs != [] {
      var b, rest := EncodeScalar(cs[0]), EncodeText(cs[1..]);
      EncodedIsACharacter(cs[0]);
      HeadOfExtended(b, b + rest);
      assert (b + rest)[|b|..] == rest;
      TextIsValid(cs[1..]);
    }
  }

  lemma ValidTail(s: seq<Byte>)
    requires Valid(s) && s != []
    ensures HeadOf(s).Character? && Valid(s[HeadOf(s).len..])
  {
  }

  lemma ConsText(s: seq<Byte>, n: nat, c: Scalar, rest: seq<Scalar>)
    requires n <= |s| && EncodeScalar(c) == s[..n] && EncodeText(rest) == s[n..]
    ensures EncodeText([c] + rest) == s
  {
    assert ([c] + rest)[1..] == rest;
    assert s[..n] + s[n..] == s;
  }

  lemma {:induction false} ValidIsText(s: seq<Byte>) returns (cs: seq<Scalar>)
    requires Valid(s)
    ensures EncodeText(cs) == s
  {
    if s == [] {
      cs := [];
    } else {
      ValidTail(s);
      var c := CharacterIsEncoded(s);
      var rest := ValidIsText(s[HeadOf(s).len..]);
      ConsText(s, HeadOf(s).len, c, rest);
      cs := [c] + rest;
    }
  }

  /** Where text ends and an unfinished character begins, the scan stops. */
  lemma {:induction false} StopsInCharacter(cs: seq<Scalar>, rest: seq<Byte>)
    requires BeginsCharacter(rest) && rest != []
    ensures Check(EncodeText(cs) + rest) == ValidUpTo(|EncodeText(cs)|, true)
  {
    if cs == [] {
      UnfinishedExactly(rest);
      assert EncodeText(cs) + rest == rest;
    } else {
      var b, more := EncodeScalar(cs[0]), EncodeText(cs[1..]) + rest;
      assert EncodeText(cs) + rest == b + more;
      EncodedIsACharacter(cs[0]);
      HeadOfExtended(b, b + more);
      assert (b + more)[|b|..] == more;
      StopsInCharacter(cs[1..], rest);
    }
  }

  /** The scan calls valid exactly the encodings of texts. */
  lemma ValidExactly(s: seq<Byte>)
    ensures Valid(s) <==> IsText(s)
  {
    if Valid(s) {
      var cs := ValidIsText(s);
    }
    if cs: seq<Scalar> :| s == EncodeText(cs) {
      TextIsValid(cs);
    }
  }

  /** The smallest completion of an unfinished character. */
  function Completed(s: seq<Byte>): seq<Byte>
    requires s != [] && HeadOf(s).Unfinished?
  {
    var second: Byte := if s[0] == 0xE0 then 0xA0 else if s[0] == 0xF0 then 0x90 else 0x80;
    var two := if |s| == 1 then s + [second] else s;
    var three := if |two| == 2 && Announced(s[0]) > 2 then two + [0x80] else two;
    if |three| == 3 && Announced(s[0]) > 3 then three + [0x80] else three
  }

  lemma CompletedIsACharacter(s: seq<Byte>)
    requires s != [] && HeadOf(s).Unfinished?
    ensures s < Completed(s) && HeadOf(Completed(s)) == Character(|Completed(s)|)
  {
  }

  /** The scan calls unfinished exactly the beginnings of encodings. */
  lemma UnfinishedExactly(s: seq<Byte>)
    requires s != []
    ensures HeadOf(s).Unfinished? <==> BeginsCharacter(s)
  {
    if HeadOf(s).Unfinished? {
      CompletedIsACharacter(s);
      var t := Completed(s);
      var c := CharacterIsEncoded(t);
      assert t[..|t|] == t;
    }
    if c: Scalar :| s < EncodeScalar(c) {
      var b := EncodeScalar(c);
      EncodedIsACharacter(c);
      HeadOfPrefix(b, |s|);
      assert b[..|s|] == s;
    }
  }

  /** Where the scan stops there is a byte, and it stops there for the reason it gives. */
  lemma {:induction false} StopsAt(s: seq<Byte>)
    requires Check(s).ValidUpTo?
    ensures Check(s).at < |s|
    ensures HeadOf(s[Check(s).at..]) == if Check(s).unfinished then Unfinished else Malformed
  {
    if HeadOf(s).Character? {
      var n := HeadOf(s).len;
      StopsAt(s[n..]);
      assert s[n..][Check(s[n..]).at..] == s[Check(s).at..];
    } else {
      assert s[0..] == s;
    }
  }

  /**
   * What a scan reports: all of a text, or the longest text the bytes begin with, followed by the
   * beginning of a character, or by bytes that neither begin a character nor begin with one.
   */
  lemma ScanExactly(s: seq<Byte>)
    ensures Check(s).AllValid? <==> IsText(s)
    ensures Check(s).ValidUpTo? ==>
              var at := Check(s).at;
              && at < |s| && IsText(s[..at])
              && (Check(s).unfinished <==> BeginsCharacter(s[at..]))
              && forall c: Scalar :: !(EncodeScalar(c) <= s[at..])
  {
    ValidExactly(s);
    if Check(s).ValidUpTo? {
      var at := Check(s).at;
      StopsAt(s);
      ValidPartIsValid(s);
      ValidExactly(s[..at]);
      UnfinishedExactly(s[at..]);
      forall c: Scalar ensures !(EncodeScalar(c) <= s[at..]) {
        EncodedIsACharacter(c);
        if EncodeScalar(c) <= s[at..] {
          HeadOfExtended(EncodeScalar(c), s[at..]);
        }
      }
    }
  }
}
