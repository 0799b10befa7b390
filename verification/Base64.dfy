/**
 * Padded base64 (src/root_v1.rs:712-755) and the block-wise encoder that streams a file to a
 * caller (src/fresh_run.rs:416-458), against section 4 of RFC 4648. Text is its bytes.
 */
module Base64 {

  import opened Options

  type Byte = x: int | 0 <= x < 256

  type Sextet = x: int | 0 <= x < 64

  const PAD: Byte := '=' as int

  // ---------------------------------------------------------------- specification

  /** The letter of a six-bit value. */
  function Letter(v: Sextet): Byte {
    if v < 26 then 'A' as int + v
    else if v < 52 then 'a' as int + v - 26
    else if v < 62 then '0' as int + v - 52
    else if v == 62 then '+' as int
    else '/' as int
  }

  /** The position of a byte in the alphabet. */
  function Value(c: Byte): Option<Sextet> {
    if 'A' as int <= c <= 'Z' as int then Some(c - 'A' as int)
    else if 'a' as int <= c <= 'z' as int then Some(c - 'a' as int + 26)
    else if '0' as int <= c <= '9' as int then Some(c - '0' as int + 52)
    else if c == '+' as int then Some(62)
    else if c == '/' as int then Some(63)
    else None
  }

  function At(chunk: seq<Byte>, i: nat): Byte {
    if i < |chunk| then chunk[i] else 0
  }

  /** The 24-bit group of three bytes, and of four six-bit values. */
  function OfBytes(a: Byte, b: Byte, c: Byte): nat {
    a * 0x1_0000 + b * 0x100 + c
  }

  function OfSextets(s0: Sextet, s1: Sextet, s2: Sextet, s3: Sextet): nat {
    s0 * 0x4_0000 + s1 * 0x1000 + s2 * 64 + s3
  }

  /** The four six-bit groups of three bytes, bits taken from the left. */
  function First(a: Byte): Sextet { a / 4 }

  function Second(a: Byte, b: Byte): Sextet { a % 4 * 16 + b / 16 }

  function Third(b: Byte, c: Byte): Sextet { b % 16 * 4 + c / 64 }

  function Fourth(c: Byte): Sextet { c % 64 }

  /** One quad: groups that hold no input bits are padded. */
  function Quad(chunk: seq<Byte>): (q: seq<Byte>)
    requires 1 <= |chunk| <= 3
    ensures |q| == 4
  {
    [Letter(First(chunk[0])), Letter(Second(chunk[0], At(chunk, 1))),
     if |chunk| > 1 then Letter(Third(chunk[1], At(chunk, 2))) else PAD,
     if |chunk| > 2 then Letter(Fourth(chunk[2])) else PAD]
  }

  function Encode(b: seq<Byte>): seq<Byte> {
    if |b| == 0 then []
    else if |b| <= 3 then Quad(b)
    else Quad(b[..3]) + Encode(b[3..])
  }

  /** Trailing padding of a quad. */
  function Padding(q: seq<Byte>): (p: nat)
    ensures p <= |q|
  {
    if q != [] && q[|q| - 1] == PAD then 1 + Padding(q[..|q| - 1]) else 0
  }

  /** The value a quad's position contributes: nothing where it is padding. */
  function Place(q: seq<Byte>, i: nat): Option<Sextet>
    requires i < |q|
  {
    if i >= |q| - Padding(q) then Some(0) else Value(q[i])
  }

  /** The three bytes of four six-bit values. */
  function ThreeBytes(s0: Sextet, s1: Sextet, s2: Sextet, s3: Sextet): (b: seq<Byte>)
    ensures |b| == 3
  {
    [s0 * 4 + s1 / 16, s1 % 16 * 16 + s2 / 4, s2 % 4 * 64 + s3]
  }

  function DecodeQuad(q: seq<Byte>): Option<seq<Byte>>
    requires |q| == 4
  {
    if Padding(q) > 2 || Place(q, 0).None? || Place(q, 1).None? || Place(q, 2).None? || Place(q, 3).None? then None
    else
      Some(ThreeBytes(Place(q, 0).value, Place(q, 1).value, Place(q, 2).value, Place(q, 3).value)[..3 - Padding(q)])
  }

  function Quads(text: seq<Byte>): Option<seq<Byte>> {
    if |text| < 4 then Some([])
    else match DecodeQuad(text[..4])
      case None => None
      case Some(head) =>
        match Quads(text[4..])
        case None => None
        case Some(rest) => Some(head + rest)
  }

  function Decode(text: seq<Byte>): Option<seq<Byte>> {
    if |text| % 4 != 0 then None
    else match Quads(text)
      case None => None
      case Some(b) => if Encode(b) == text then Some(b) else None
  }

  // ---------------------------------------------------------------- alphabet

  /** Table 1 of RFC 4648: upper-case letters, lower-case letters and digits in order, then plus and slash. */
  lemma AlphabetIsStandard(v: Sextet)
    ensures Letter(0) == 'A' as int && Letter(26) == 'a' as int && Letter(52) == '0' as int
    ensures Letter(62) == '+' as int && Letter(63) == '/' as int && PAD == '=' as int
    ensures v != 25 && v != 51 && v < 61 ==> Letter(v + 1) == Letter(v) + 1
  {
  }

  lemma LettersAndValuesAreInverse(v: Sextet, c: Byte)
    ensures Value(Letter(v)) == Some(v) && Letter(v) != PAD
    ensures Value(c).Some? ==> Letter(Value(c).value) == c
    ensures Value(PAD) == None
  {
  }

  // ---------------------------------------------------------------- one quad

  /** Four six-bit groups hold the same 24 bits as the three bytes they were cut from. */
  lemma SameBits(a: Byte, b: Byte, c: Byte)
    ensures OfSextets(First(a), Second(a, b), Third(b, c), Fourth(c)) == OfBytes(a, b, c)
  {
  }

  /** A 24-bit group has one reading as four six-bit values and one as three bytes. */
  lemma OneSextetReading(s0: Sextet, s1: Sextet, s2: Sextet, s3: Sextet)
    ensures var t := OfSextets(s0, s1, s2, s3);
            t / 0x4_0000 == s0 && t / 0x1000 % 64 == s1 && t / 64 % 64 == s2 && t % 64 == s3
  {
    var t := OfSextets(s0, s1, s2, s3);
    assert t / 0x4_0000 == s0;
    assert t / 0x1000 == s0 * 64 + s1;
    assert t / 64 == (s0 * 64 + s1) * 64 + s2;
  }

  lemma OneByteReading(a: Byte, b: Byte, c: Byte)
    ensures var t := OfBytes(a, b, c); t / 0x1_0000 == a && t / 0x100 % 256 == b && t % 256 == c
  {
    var t := OfBytes(a, b, c);
    assert t / 0x1_0000 == a;
    assert t / 0x100 == a * 256 + b;
  }

  /** The four shifts of a triple that the one-shot encoder takes are the four groups. */
  lemma ShiftsOfBytes(a: Byte, b: Byte, c: Byte)
    ensures var t := OfBytes(a, b, c);
            && t / 0x4_0000 == First(a) && t / 0x1000 % 64 == Second(a, b)
            && t / 64 % 64 == Third(b, c) && t % 64 == Fourth(c)
  {
    SameBits(a, b, c);
    OneSextetReading(First(a), Second(a, b), Third(b, c), Fourth(c));
  }

  /** The big-endian bytes of a triple of sextets. */
  lemma BytesOfSextets(s0: Sextet, s1: Sextet, s2: Sextet, s3: Sextet)
    ensures var t := OfSextets(s0, s1, s2, s3);
            && t / 0x1_0000 == s0 * 4 + s1 / 16 && t / 0x100 % 256 == s1 % 16 * 16 + s2 / 4
            && t % 256 == s2 % 4 * 64 + s3
  {
    var a, b, c := s0 * 4 + s1 / 16, s1 % 16 * 16 + s2 / 4, s2 % 4 * 64 + s3;
    assert OfBytes(a, b, c) == OfSextets(s0, s1, s2, s3);
    OneByteReading(a, b, c);
  }

  lemma PaddingOfFour(q: seq<Byte>)
    requires |q| == 4
    ensures Padding(q) == if q[3] != PAD then 0 else if q[2] != PAD then 1 else if q[1] != PAD then 2
                          else if q[0] != PAD then 3 else 4
  {
    assert q[..3][..2] == q[..2] && q[..2][..1] == q[..1];
    assert Padding(q[..1]) == if q[0] == PAD then 1 else 0;
    assert Padding(q[..2]) == if q[1] == PAD then 1 + Padding(q[..1]) else 0;
    assert Padding(q[..3]) == if q[2] == PAD then 1 + Padding(q[..2]) else 0;
  }

  /** What the four places of an encoded quad hold. */
  lemma QuadPlaces(chunk: seq<Byte>)
    requires 1 <= |chunk| <= 3
    ensures var q := Quad(chunk);
            && Padding(q) == 3 - |chunk|
            && Place(q, 0) == Some(First(chunk[0])) && Place(q, 1) == Some(Second(chunk[0], At(chunk, 1)))
            && Place(q, 2) == Some(if |chunk| > 1 then Third(chunk[1], At(chunk, 2)) else 0)
            && Place(q, 3) == Some(if |chunk| > 2 then Fourth(chunk[2]) else 0)
  {
    PaddingOfFour(Quad(chunk));
    LettersAndValuesAreInverse(First(chunk[0]), 0);
    LettersAndValuesAreInverse(Second(chunk[0], At(chunk, 1)), 0);
    LettersAndValuesAreInverse(Third(At(chunk, 1), At(chunk, 2)), 0);
    LettersAndValuesAreInverse(Fourth(At(chunk, 2)), 0);
  }

  lemma QuadRoundTrip(chunk: seq<Byte>)
    requires 1 <= |chunk| <= 3
    ensures DecodeQuad(Quad(chunk)) == Some(chunk)
  {
    QuadPlaces(chunk);
    var q := Quad(chunk);
    var three := ThreeBytes(Place(q, 0).value, Place(q, 1).value, Place(q, 2).value, Place(q, 3).value);
    assert three[0] == chunk[0];
    assert |chunk| > 1 ==> three[1] == chunk[1];
    assert |chunk| > 2 ==> three[2] == chunk[2];
    assert chunk == three[..|chunk|];
  }

  /** A quad with up to two trailing pads, letters elsewhere, and zero in the bits the padding leaves over. */
  predicate CanonicalQuad(q: seq<Byte>)
    requires |q| == 4
  {
    && Value(q[0]).Some? && Value(q[1]).Some?
    && (Value(q[2]).Some? || (q[2] == PAD && q[3] == PAD && Value(q[1]).value % 16 == 0))
    && (Value(q[3]).Some? || (q[3] == PAD && (q[2] == PAD || Value(q[2]).value % 4 == 0)))
  }

  lemma QuadIsCanonical(chunk: seq<Byte>)
    requires 1 <= |chunk| <= 3
    ensures CanonicalQuad(Quad(chunk))
    ensures |chunk| == 3 <==> PAD !in Quad(chunk)
  {
    assert Second(chunk[0], 0) % 16 == 0 && Third(At(chunk, 1), 0) % 4 == 0;
    LettersAndValuesAreInverse(First(chunk[0]), 0);
    LettersAndValuesAreInverse(Second(chunk[0], At(chunk, 1)), 0);
    LettersAndValuesAreInverse(Third(At(chunk, 1), At(chunk, 2)), 0);
    LettersAndValuesAreInverse(Fourth(At(chunk, 2)), 0);
  }

  /** Cutting the bytes of four sextets gives the sextets back. */
  lemma CutAgain(s0: Sextet, s1: Sextet, s2: Sextet, s3: Sextet)
    ensures var b := ThreeBytes(s0, s1, s2, s3);
            && First(b[0]) == s0 && Second(b[0], b[1]) == s1 && Third(b[1], b[2]) == s2 && Fourth(b[2]) == s3
            && (s1 % 16 == 0 ==> Second(b[0], 0) == s1) && (s2 % 4 == 0 ==> Third(b[1], 0) == s2)
  {
  }

  /** Without the bytes that padding stands for, the quad is the one with that padding. */
  lemma QuadOfSextets(s0: Sextet, s1: Sextet, s2: Sextet, s3: Sextet, p: nat)
    requires p <= 2 && (p == 1 ==> s2 % 4 == 0) && (p == 2 ==> s1 % 16 == 0)
    ensures Quad(ThreeBytes(s0, s1, s2, s3)[..3 - p])
         == [Letter(s0), Letter(s1), if p < 2 then Letter(s2) else PAD, if p < 1 then Letter(s3) else PAD]
  {
    CutAgain(s0, s1, s2, s3);
    var b := ThreeBytes(s0, s1, s2, s3);
    var c := b[..3 - p];
    assert c[0] == b[0] && At(c, 1) == if p < 2 then b[1] else 0;
    assert At(c, 2) == if p < 1 then b[2] else 0;
  }

  /** What the four places of a canonical quad hold. */
  lemma CanonicalPlaces(q: seq<Byte>)
    requires |q| == 4 && CanonicalQuad(q)
    ensures Padding(q) <= 2 && (Padding(q) == 0 <==> PAD !in q)
    ensures forall i :: 0 <= i < 4 ==> Place(q, i).Some?
    ensures forall i :: 0 <= i < 4 - Padding(q) ==> Letter(Place(q, i).value) == q[i]
    ensures forall i :: 4 - Padding(q) <= i < 4 ==> q[i] == PAD
    ensures (Padding(q) == 1 ==> Place(q, 2).value % 4 == 0) && (Padding(q) == 2 ==> Place(q, 1).value % 16 == 0)
  {
    PaddingOfFour(q);
    forall i | 0 <= i < 4 ensures Value(q[i]).Some? ==> Letter(Value(q[i]).value) == q[i] {
      LettersAndValuesAreInverse(0, q[i]);
    }
  }

  /** Every canonical quad is the encoding of the one to three bytes it decodes to. */
  lemma CanonicalQuadIsEncoded(q: seq<Byte>)
    requires |q| == 4 && CanonicalQuad(q)
    ensures DecodeQuad(q).Some? && 1 <= |DecodeQuad(q).value| <= 3
    ensures Quad(DecodeQuad(q).value) == q
    ensures |DecodeQuad(q).value| == 3 <==> PAD !in q
  {
    CanonicalPlaces(q);
    QuadOfSextets(Place(q, 0).value, Place(q, 1).value, Place(q, 2).value, Place(q, 3).value, Padding(q));
  }

  // ---------------------------------------------------------------- whole texts

  /** Section 3.5 of RFC 4648: full quads, then at most one padded quad whose spare bits are zero. */
  predicate Canonical(text: seq<Byte>) {
    if |text| <= 4 then |text| == 0 || (|text| == 4 && CanonicalQuad(text))
    else CanonicalQuad(text[..4]) && PAD !in text[..4] && Canonical(text[4..])
  }

  lemma {:induction false} EncodedLength(b: seq<Byte>)
    ensures |Encode(b)| == (|b| + 2) / 3 * 4
  {
    if |b| > 3 {
      EncodedLength(b[3..]);
      assert (|b| - 3 + 2) / 3 + 1 == (|b| + 2) / 3;
    }
  }

  lemma {:induction false} EncodedIsCanonical(b: seq<Byte>)
    ensures Canonical(Encode(b))
  {
    if |b| > 3 {
      var q, rest := Quad(b[..3]), Encode(b[3..]);
      QuadIsCanonical(b[..3]);
      EncodedIsCanonical(b[3..]);
      EncodedLength(b[3..]);
      assert (q + rest)[..4] == q && (q + rest)[4..] == rest;
    } else if |b| > 0 {
      QuadIsCanonical(b);
    }
  }

  lemma {:induction false} QuadsOfEncoded(b: seq<Byte>)
    ensures Quads(Encode(b)) == Some(b)
  {
    if |b| > 3 {
      var q, rest := Quad(b[..3]), Encode(b[3..]);
      QuadRoundTrip(b[..3]);
      QuadsOfEncoded(b[3..]);
      assert (q + rest)[..4] == q && (q + rest)[4..] == rest;
      assert b[..3] + b[3..] == b;
    } else if |b| > 0 {
      QuadRoundTrip(b);
      var q := Quad(b);
      assert q[..4] == q && |q[4..]| == 0;
      assert b + [] == b;
    }
  }

  lemma Joined(text: seq<Byte>, head: seq<Byte>, tail: seq<Byte>)
    requires |text| >= 4 && 1 <= |head| <= 3 && (|head| == 3 || tail == [])
    requires Quad(head) == text[..4] && Encode(tail) == text[4..]
    ensures Encode(head + tail) == text
  {
    if |head| == 3 {
      EncodeConcat(head, tail);
    } else {
      assert head + tail == head;
    }
  }

  lemma QuadsStep(text: seq<Byte>, head: seq<Byte>, tail: seq<Byte>)
    requires |text| >= 4 && DecodeQuad(text[..4]) == Some(head) && Quads(text[4..]) == Some(tail)
    ensures Quads(text) == Some(head + tail)
  {
  }

  lemma CanonicalHead(text: seq<Byte>)
    requires Canonical(text) && |text| >= 4
    ensures CanonicalQuad(text[..4]) && Canonical(text[4..]) && (|text| > 4 ==> PAD !in text[..4])
  {
    if |text| == 4 {
      assert text[..4] == text;
    }
  }

  lemma {:induction false} CanonicalLength(text: seq<Byte>)
    requires Canonical(text)
    ensures |text| % 4 == 0
  {
    if |text| > 4 {
      CanonicalLength(text[4..]);
    }
  }

  lemma {:induction false} CanonicalIsEncoded(text: seq<Byte>)
    requires Canonical(text)
    ensures Quads(text).Some? && Encode(Quads(text).value) == text
  {
    if |text| >= 4 {
      CanonicalHead(text);
      CanonicalQuadIsEncoded(text[..4]);
      CanonicalIsEncoded(text[4..]);
      var head, tail := DecodeQuad(text[..4]).value, Quads(text[4..]).value;
      QuadsStep(text, head, tail);
      Joined(text, head, tail);
    }
  }

  /** Every byte string survives encoding and decoding. */
  lemma RoundTrip(b: seq<Byte>)
    ensures Decode(Encode(b)) == Some(b)
  {
    QuadsOfEncoded(b);
    EncodedIsCanonical(b);
    CanonicalLength(Encode(b));
  }

  /** The decoder accepts exactly the canonical texts, and each is the encoding of what it decodes to. */
  lemma AcceptsExactlyCanonical(text: seq<Byte>)
    ensures Decode(text).Some? <==> Canonical(text)
    ensures Decode(text).Some? ==> Encode(Decode(text).value) == text
  {
    if Canonical(text) {
      CanonicalLength(text);
      CanonicalIsEncoded(text);
    }
    if Decode(text).Some? {
      EncodedIsCanonical(Decode(text).value);
    }
  }

  /** Encoding whole triples commutes with concatenation. */
  lemma {:induction false} EncodeConcat(a: seq<Byte>, b: seq<Byte>)
    requires |a| % 3 == 0
    ensures Encode(a + b) == Encode(a) + Encode(b)
  {
    if |a| == 0 {
      assert a + b == b;
    } else {
      assert (a + b)[..3] == a[..3] && (a + b)[3..] == a[3..] + b;
      EncodeConcat(a[3..], b);
      if |a| == 3 {
        assert a[..3] == a && a[3..] == [];
      }
      EncodeSplit(a);
      EncodeSplit(a + b);
    }
  }

  lemma EncodeSplit(b: seq<Byte>)
    requires |b| >= 3
    ensures Encode(b) == Quad(b[..3]) + Encode(b[3..])
  {
    if |b| == 3 {
      assert b[..3] == b;
    }
  }

  // ---------------------------------------------------------------- the one-shot codec

  /** A value shifted left by 18 - 6 * i bits. */
  function SextetShifted(v: Sextet, i: nat): nat
    requires i < 4
  {
    if i == 0 then v * 0x4_0000 else if i == 1 then v * 0x1000 else if i == 2 then v * 64 else v
  }

  /** The low six bits of a triple shifted right by 18 - 6 * i bits. */
  function SextetOf(t: nat, i: nat): Sextet
    requires i < 4
  {
    if i == 0 then t / 0x4_0000 % 64 else if i == 1 then t / 0x1000 % 64 else if i == 2 then t / 64 % 64 else t % 64
  }

  /** What the one-shot encoder writes at one place of a quad. */
  function Symbol(triple: nat, len: nat, i: nat): Byte
    requires i < 4
  {
    if i <= len then Letter(SextetOf(triple, i)) else PAD
  }

  /** Shifting the triple writes the quad that the byte-wise groups describe. */
  lemma SymbolsAreTheQuad(chunk: seq<Byte>, triple: nat, i: nat)
    requires 1 <= |chunk| <= 3 && triple == OfBytes(At(chunk, 0), At(chunk, 1), At(chunk, 2)) && i < 4
    ensures Quad(chunk)[i] == Symbol(triple, |chunk|, i)
  {
    SextetsOfBytes(At(chunk, 0), At(chunk, 1), At(chunk, 2), triple);
  }

  lemma SextetsOfBytes(a: Byte, b: Byte, c: Byte, triple: nat)
    requires triple == OfBytes(a, b, c)
    ensures SextetOf(triple, 0) == First(a) && SextetOf(triple, 1) == Second(a, b)
    ensures SextetOf(triple, 2) == Third(b, c) && SextetOf(triple, 3) == Fourth(c)
  {
    ShiftsOfBytes(a, b, c);
  }

  /** One chunk: four six-bit shifts of its triple, those beyond the input padded. */
  method EncodeChunk(chunk: seq<Byte>) returns (out: seq<Byte>)
    requires 1 <= |chunk| <= 3
    ensures out == Quad(chunk)
  {
    var triple := OfBytes(At(chunk, 0), At(chunk, 1), At(chunk, 2));
    ghost var quad := Quad(chunk);
    out := [];
    for i := 0 to 4
      invariant out == quad[..i]
    {
      SymbolsAreTheQuad(chunk, triple, i);
      if i <= |chunk| {
        out := out + [Letter(SextetOf(triple, i))];
      } else {
        out := out + [PAD];
      }
    }
  }

  method EncodeBytes(bytes: seq<Byte>) returns (out: seq<Byte>)
    ensures out == Encode(bytes)
  {
    out := [];
    var i := 0;
    while i < |bytes|
      invariant i <= |bytes| && out + Encode(bytes[i..]) == Encode(bytes)
      decreases |bytes| - i
    {
      var n := if |bytes| - i < 3 then |bytes| - i else 3;
      EncodeAt(bytes, i, n, out);
      var quad := EncodeChunk(bytes[i..i + n]);
      out := out + quad;
      i := i + n;
    }
  }

  lemma EncodeStep(b: seq<Byte>, n: nat)
    requires |b| > 0 && n == if |b| < 3 then |b| else 3
    ensures Encode(b) == Quad(b[..n]) + Encode(b[n..])
  {
    if |b| <= 3 {
      assert b[..n] == b && b[n..] == [];
    }
  }

  method CountPadding(quad: seq<Byte>) returns (pad: nat)
    requires |quad| == 4
    ensures pad == Padding(quad)
  {
    pad := 0;
    while pad < 4 && quad[3 - pad] == PAD
      invariant 0 <= pad <= 4 && forall k :: 4 - pad <= k < 4 ==> quad[k] == PAD
    {
      pad := pad + 1;
    }
    PaddingOfFour(quad);
  }

  /** Fold the letter values into a triple; none if some place is neither letter nor padding. */
  method FoldLetters(quad: seq<Byte>, pad: nat) returns (triple: Option<nat>)
    requires |quad| == 4 && pad == Padding(quad)
    ensures triple.None? <==> exists i :: 0 <= i < 4 && Place(quad, i).None?
    ensures triple.Some? ==>
              triple.value == OfSextets(Place(quad, 0).value, Place(quad, 1).value, Place(quad, 2).value,
                  Place(quad, 3).value)
  {
    var t := 0;
    for i := 0 to 4
      invariant forall k :: 0 <= k < i ==> Place(quad, k).Some?
      invariant i == 0 ==> t == 0
      invariant i == 1 ==> t == OfSextets(Place(quad, 0).value, 0, 0, 0)
      invariant i == 2 ==> t == OfSextets(Place(quad, 0).value, Place(quad, 1).value, 0, 0)
      invariant i == 3 ==> t == OfSextets(Place(quad, 0).value, Place(quad, 1).value, Place(quad, 2).value, 0)
      invariant i == 4 ==>
                  t == OfSextets(Place(quad, 0).value, Place(quad, 1).value, Place(quad, 2).value, Place(quad, 3).value)
    {
      var value := if i >= 4 - pad then Some(0) else Value(quad[i]);
      assert value == Place(quad, i);
      if value.None? {
        return None;
      }
      t := t + SextetShifted(value.value, i);
    }
    triple := Some(t);
  }

  /** One quad: the bytes of the triple that are not padding. */
  method DecodeOne(quad: seq<Byte>) returns (out: Option<seq<Byte>>)
    requires |quad| == 4
    ensures out == DecodeQuad(quad)
  {
    var pad := CountPadding(quad);
    if pad > 2 {
      return None;
    }
    var triple := FoldLetters(quad, pad);
    if triple.None? {
      return None;
    }
    BytesOfSextets(Place(quad, 0).value, Place(quad, 1).value, Place(quad, 2).value, Place(quad, 3).value);
    out := Some([triple.value / 0x1_0000, triple.value / 0x100 % 256, triple.value % 256][..3 - pad]);
  }

  method DecodeQuads(text: seq<Byte>) returns (r: Option<seq<Byte>>)
    requires |text| % 4 == 0
    ensures r == Quads(text)
  {
    var out: seq<Byte> := [];
    var n := |text| / 4;
    PrependNothing(text);
    for k := 0 to n
      invariant Quads(text) == Prepend(out, Quads(text[4 * k..]))
    {
      QuadsUnfold(text, 4 * k, out);
      var head := DecodeOne(text[4 * k..4 * k + 4]);
      if head.None? {
        return None;
      }
      out := out + head.value;
    }
    assert |text[4 * n..]| == 0 && out + [] == out;
    r := Some(out);
  }

  lemma PrependNothing(text: seq<Byte>)
    ensures Prepend([], Quads(text[0..])) == Quads(text)
  {
    assert text[0..] == text;
    if Quads(text).Some? {
      assert [] + Quads(text).value == Quads(text).value;
    }
  }

  /** unbase64: accepted exactly when canonical, and then the bytes whose encoding the text is. */
  method DecodeText(text: seq<Byte>) returns (r: Option<seq<Byte>>)
    ensures r.Some? <==> Canonical(text)
    ensures r.Some? ==> Encode(r.value) == text
    ensures r == Decode(text)
  {
    AcceptsExactlyCanonical(text);
    if |text| % 4 != 0 {
      return None;
    }
    var out := DecodeQuads(text);
    if out.None? {
      return None;
    }
    var again := EncodeBytes(out.value);
    r := if again == text then out else None;
  }

  function Prepend(head: seq<Byte>, rest: Option<seq<Byte>>): Option<seq<Byte>> {
    if rest.None? then None else Some(head + rest.value)
  }

  lemma QuadsUnfold(text: seq<Byte>, i: nat, out: seq<Byte>)
    requires i + 4 <= |text|
    ensures DecodeQuad(text[i..i + 4]).None? ==> Prepend(out, Quads(text[i..])) == None
    ensures DecodeQuad(text[i..i + 4]).Some? ==>
              Prepend(out, Quads(text[i..])) == Prepend(out + DecodeQuad(text[i..i + 4]).value, Quads(text[i + 4..]))
  {
    var t := text[i..];
    assert t[..4] == text[i..i + 4] && t[4..] == text[i + 4..];
    var rest := Quads(text[i + 4..]);
    if DecodeQuad(t[..4]).Some? && rest.Some? {
      var head := DecodeQuad(t[..4]).value;
      assert out + (head + rest.value) == (out + head) + rest.value;
    }
  }

  // ---------------------------------------------------------------- the streaming encoder

  const INPUT_BLOCK: nat := 48 * 1024

  const OUTPUT_BLOCK: nat := 64 * 1024

  datatype WriteResult = Written | ShortInput | Changed

  /** The body of the inner loop: four letters for one group of input. */
  method WriteQuad(encoded: array<Byte>, used: nat, chunk: seq<Byte>)
    requires used + 4 <= encoded.Length && 1 <= |chunk| <= 3
    modifies encoded
    ensures encoded[..used + 4] == old(encoded[..used]) + Quad(chunk)
  {
    ghost var before := encoded[..used];
    var a := chunk[0];
    var b := if |chunk| > 1 then chunk[1] else 0;
    var c := if |chunk| > 2 then chunk[2] else 0;
    encoded[used] := Letter(a / 4);
    encoded[used + 1] := Letter(a % 4 * 16 + b / 16);
    encoded[used + 2] := if |chunk| > 1 then Letter(b % 16 * 4 + c / 64) else PAD;
    encoded[used + 3] := if |chunk| > 2 then Letter(c % 64) else PAD;
    ghost var q := Quad(chunk);
    assert encoded[used] == q[0] && encoded[used + 1] == q[1] && encoded[used + 2] == q[2] && encoded[used + 3] == q[3];
    assert encoded[..used] == before;
    assert encoded[used..used + 4] == q;
    assert encoded[..used + 4] == encoded[..used] + encoded[used..used + 4];
  }

  /** One turn of the inner loop, on a group of the block. */
  method EncodeGroup(input: array<Byte>, n: nat, encoded: array<Byte>, i: nat, used: nat) returns (m: nat)
    requires i < n <= input.Length && used + 4 <= encoded.Length && input != encoded
    requires encoded[..used] + Encode(input[..n][i..]) == Encode(input[..n])
    modifies encoded
    ensures m == if n - i < 3 then n - i else 3
    ensures encoded[..used + 4] + Encode(input[..n][i + m..]) == Encode(input[..n])
  {
    m := if n - i < 3 then n - i else 3;
    ghost var all := input[..n];
    EncodeAt(all, i, m, encoded[..used]);
    assert all[i..i + m] == input[i..i + m];
    WriteQuad(encoded, used, input[i..i + m]);
    assert input[..n] == all;
  }

  /** The inner loop: encode one block into the output buffer. */
  method EncodeBlock(input: array<Byte>, n: nat, encoded: array<Byte>) returns (used: nat)
    requires input.Length == INPUT_BLOCK && encoded.Length == OUTPUT_BLOCK && input != encoded && n <= INPUT_BLOCK
    modifies encoded
    ensures used <= OUTPUT_BLOCK && encoded[..used] == Encode(input[..n])
  {
    used := 0;
    var i := 0;
    ghost var groups := 0;
    assert encoded[..0] + Encode(input[..n][0..]) == Encode(input[..n]) by { assert input[..n][0..] == input[..n]; }
    while i < n
      invariant i <= n && used == 4 * groups && used <= OUTPUT_BLOCK && (i < n ==> i == 3 * groups)
      invariant encoded[..used] + Encode(input[..n][i..]) == Encode(input[..n])
      decreases n - i
    {
      var m := EncodeGroup(input, n, encoded, i, used);
      used := used + 4;
      i := i + m;
      groups := groups + 1;
    }
    assert input[..n][n..] == [];
  }

  lemma EncodeAt(b: seq<Byte>, i: nat, m: nat, done: seq<Byte>)
    requires i < |b| && m == if |b| - i < 3 then |b| - i else 3
    ensures done + Encode(b[i..]) == (done + Quad(b[i..i + m])) + Encode(b[i + m..])
  {
    EncodeStep(b[i..], m);
    assert b[i..][..m] == b[i..i + m] && b[i..][m..] == b[i + m..];
  }

  method ReadExact(input: array<Byte>, n: nat, block: seq<Byte>)
    requires n == |block| <= input.Length
    modifies input
    ensures input[..n] == block
  {
    for i := 0 to n
      invariant input[..i] == block[..i]
    {
      input[i] := block[i];
    }
  }

  /** One turn of the outer loop: read a block, encode it, and hand the filled part of the buffer on. */
  method EncodeNext(input: array<Byte>, encoded: array<Byte>, block: seq<Byte>)
      returns (bytes: seq<Byte>, out: seq<Byte>)
    requires input.Length == INPUT_BLOCK && encoded.Length == OUTPUT_BLOCK && input != encoded && |block| <= INPUT_BLOCK
    modifies input, encoded
    ensures bytes == block && out == Encode(block)
  {
    ReadExact(input, |block|, block);
    bytes := input[..|block|];
    var used := EncodeBlock(input, |block|, encoded);
    out := encoded[..used];
  }

  /** Only the last block can end inside a group of three. */
  lemma BlocksAreWholeGroups(blocks: nat, available: nat)
    ensures blocks * INPUT_BLOCK % 3 == 0
    ensures blocks * INPUT_BLOCK <= available < blocks * INPUT_BLOCK + INPUT_BLOCK ==>
              available - available % INPUT_BLOCK == blocks * INPUT_BLOCK
  {
    assert blocks * INPUT_BLOCK == blocks * (INPUT_BLOCK / 3) * 3;
  }

  lemma NextBlock(stream: seq<Byte>, blocks: nat, n: nat)
    requires blocks * INPUT_BLOCK + n <= |stream|
    ensures var position := blocks * INPUT_BLOCK;
            && Encode(stream[..position + n]) == Encode(stream[..position]) + Encode(stream[position..position + n])
            && stream[..position + n] == stream[..position] + stream[position..position + n]
  {
    var position := blocks * INPUT_BLOCK;
    BlocksAreWholeGroups(blocks, 0);
    assert stream[..position + n] == stream[..position] + stream[position..position + n];
    EncodeConcat(stream[..position], stream[position..position + n]);
  }

  /**
   * write_base64: `length` is what the metadata said, `stream` what the successive reads return and
   * `hash` the digest. The caller is sent the one-shot encoding of the first `length` bytes, and is
   * told of success exactly when they are all there and have the expected digest.
   */
  method WriteBase64(length: nat, stream: seq<Byte>, expected: string, hash: seq<Byte> -> string)
      returns (result: WriteResult, output: seq<Byte>)
    ensures result == Written <==> length <= |stream| && hash(stream[..length]) == expected
    ensures result == ShortInput <==> length > |stream|
    ensures result != ShortInput ==> output == Encode(stream[..length])
    ensures result == ShortInput ==> output == Encode(stream[..|stream| - |stream| % (48 * 1024)])
  {
    var input := new Byte[INPUT_BLOCK];
    var encoded := new Byte[OUTPUT_BLOCK];
    var remaining: nat := length;
    var position: nat := 0;
    var digested: seq<Byte> := [];
    output := [];
    ghost var blocks: nat := 0;
    assert stream[..0] == [];
    while remaining > 0
      invariant remaining + position == length && position <= |stream|
      invariant remaining > 0 ==> position == blocks * INPUT_BLOCK
      invariant digested == stream[..position] && output == Encode(stream[..position])
    {
      var n := if remaining < INPUT_BLOCK then remaining else INPUT_BLOCK;
      if |stream| - position < n {
        BlocksAreWholeGroups(blocks, |stream|);
        return ShortInput, output;
      }
      var bytes, out := EncodeNext(input, encoded, stream[position..position + n]);
      digested := digested + bytes;
      remaining := remaining - n;
      NextBlock(stream, blocks, n);
      output := output + out;
      position := position + n;
      blocks := blocks + 1;
    }
    result := if hash(digested) != expected then Changed else Written;
  }
}
