/** Base64 as sections 4 and 5 of RFC 4648 define it, on the stream of bits, and that the codec computes it. */
module Base64Bits {
  import opened Wrappers
  import opened Base64

  // ----- The alphabets -----

  const CAPITALS := "ABCDEFGHIJKLMNOPQRSTUVWXYZ"
  const SMALLS := "abcdefghijklmnopqrstuvwxyz"
  const DIGITS := "0123456789"

  /** Table 1 in section 4 of the RFC. */
  const STANDARD := CAPITALS + SMALLS + DIGITS + "+/"

  /** Table 2 in section 5, safe in URLs and file names. */
  const URL_SAFE := CAPITALS + SMALLS + DIGITS + "-_"

  lemma AlphabetLengths()
    ensures |CAPITALS| == |SMALLS| == 26 && |DIGITS| == 10 && |STANDARD| == |URL_SAFE| == 64
  {}

  lemma Capital(i: nat)
    requires i < 26
    ensures |CAPITALS| == 26 && CAPITALS[i] == 'A' + i as char
  {}

  lemma Small(i: nat)
    requires i < 26
    ensures |SMALLS| == 26 && SMALLS[i] == 'a' + i as char
  {}

  lemma Figure(i: nat)
    requires i < 10
    ensures |DIGITS| == 10 && DIGITS[i] == '0' + i as char
  {}

  function Symbol(v: Sextet): char {
    AlphabetLengths();
    STANDARD[v]
  }

  /** The codec writes the standard alphabet. */
  lemma LetterIsSymbol(v: Sextet)
    ensures Letter(v) == Symbol(v)
  {
    hide CAPITALS, SMALLS, DIGITS;
    AlphabetLengths();
    if v < 26 { Capital(v); } else if v < 52 { Small(v - 26); } else if v < 62 { Figure(v - 52); }
  }

  /** It reads both alphabets, and takes every other character for zero. */
  lemma CodeReads(c: char)
    ensures |STANDARD| == |URL_SAFE| == 64
    ensures forall v: Sextet :: STANDARD[v] == c || URL_SAFE[v] == c ==> Code(c) == v
    ensures c !in STANDARD && c !in URL_SAFE ==> Code(c) == 0
  {
    hide CAPITALS, SMALLS, DIGITS;
    AlphabetLengths();
    forall v: Sextet ensures STANDARD[v] == c || URL_SAFE[v] == c ==> Code(c) == v {
      if v < 26 { Capital(v); } else if v < 52 { Small(v - 26); } else if v < 62 { Figure(v - 52); }
    }
    if 'A' <= c <= 'Z' {
      Capital((c - 'A') as int);
      assert STANDARD[(c - 'A') as int] == c;
    } else if 'a' <= c <= 'z' {
      Small((c - 'a') as int);
      assert STANDARD[(c - 'a') as int + 26] == c;
    } else if '0' <= c <= '9' {
      Figure((c - '0') as int);
      assert STANDARD[(c - '0') as int + 52] == c;
    } else {
      assert STANDARD[62] == '+' && STANDARD[63] == '/' && URL_SAFE[62] == '-' && URL_SAFE[63] == '_';
    }
  }

  // ----- The encoding on bits -----

  function Bit(x: bool): (n: nat)
    ensures n <= 1
  {
    if x then 1 else 0
  }

  /** The bits of a byte, most significant first. */
  function ByteBits(b: Byte): (r: seq<bool>)
    ensures |r| == 8
  {
    [b / 128 == 1, b / 64 % 2 == 1, b / 32 % 2 == 1, b / 16 % 2 == 1,
     b / 8 % 2 == 1, b / 4 % 2 == 1, b / 2 % 2 == 1, b % 2 == 1]
  }

  function BitsOf(bytes: seq<Byte>): seq<bool> {
    if bytes == [] then [] else ByteBits(bytes[0]) + BitsOf(bytes[1..])
  }

  function SextetOf(x: seq<bool>): Sextet
    requires |x| == 6
  {
    32 * Bit(x[0]) + 16 * Bit(x[1]) + 8 * Bit(x[2]) + 4 * Bit(x[3]) + 2 * Bit(x[4]) + Bit(x[5])
  }

  function Zeros(n: nat): (r: seq<bool>)
    ensures |r| == n
  {
    seq(n, _ => false)
  }

  /** A symbol for each six bits, the last ones filled up with zeros. */
  function Letters(bits: seq<bool>): string {
    if bits == [] then ""
    else if |bits| < 6 then [Symbol(SextetOf(bits + Zeros(6 - |bits|)))]
    else [Symbol(SextetOf(bits[..6]))] + Letters(bits[6..])
  }

  /** Padding up to a multiple of four letters. */
  function Padded(s: string): string {
    if |s| % 4 == 0 then s else if |s| % 4 == 3 then s + "=" else if |s| % 4 == 2 then s + "==" else s + "==="
  }

  /** The encoding of RFC 4648. */
  function Rfc(bytes: seq<Byte>): string {
    Padded(Letters(BitsOf(bytes)))
  }

  // ----- Bits and quotients -----

  // Quotients and remainders of a byte add up from its binary digits.
  ghost predicate AddsUp(b: Byte, p: int, q: int, r: int, s: int, t: int, u: int, v: int, w: int) {
    && b / 4 == 32 * p + 16 * q + 8 * r + 4 * s + 2 * t + u && b % 4 == 2 * v + w
    && b / 16 == 8 * p + 4 * q + 2 * r + s && b % 16 == 8 * t + 4 * u + 2 * v + w
    && b / 64 == 2 * p + q && b % 64 == 32 * r + 16 * s + 8 * t + 4 * u + 2 * v + w
  }

  ghost predicate Composed(b: Byte, x: seq<bool>)
    requires |x| == 8
  {
    && b / 4 == 32 * Bit(x[0]) + 16 * Bit(x[1]) + 8 * Bit(x[2]) + 4 * Bit(x[3]) + 2 * Bit(x[4]) + Bit(x[5])
    && b % 4 == 2 * Bit(x[6]) + Bit(x[7])
    && b / 16 == 8 * Bit(x[0]) + 4 * Bit(x[1]) + 2 * Bit(x[2]) + Bit(x[3])
    && b % 16 == 8 * Bit(x[4]) + 4 * Bit(x[5]) + 2 * Bit(x[6]) + Bit(x[7])
    && b / 64 == 2 * Bit(x[0]) + Bit(x[1])
    && b % 64 == 32 * Bit(x[2]) + 16 * Bit(x[3]) + 8 * Bit(x[4]) + 4 * Bit(x[5]) + 2 * Bit(x[6]) + Bit(x[7])
  }

  lemma ComposedIs(b: Byte, x: seq<bool>)
    requires |x| == 8
    requires AddsUp(b, Bit(x[0]), Bit(x[1]), Bit(x[2]), Bit(x[3]), Bit(x[4]), Bit(x[5]), Bit(x[6]), Bit(x[7]))
    ensures Composed(b, x)
  {
    hide Bit;
  }

  lemma Quotients(b: Byte)
    ensures AddsUp(b, b / 128, b / 64 % 2, b / 32 % 2, b / 16 % 2, b / 8 % 2, b / 4 % 2, b / 2 % 2, b % 2)
  {
    var h1, h2, h3, h4, h5, h6, h7 := b / 2, b / 4, b / 8, b / 16, b / 32, b / 64, b / 128;
    assert b == 2 * h1 + b % 2;
    assert h2 == h1 / 2 && h1 == 2 * h2 + h1 % 2;
    assert h3 == h2 / 2 && h2 == 2 * h3 + h2 % 2;
    assert h4 == h3 / 2 && h3 == 2 * h4 + h3 % 2;
    assert h5 == h4 / 2 && h4 == 2 * h5 + h4 % 2;
    assert h6 == h5 / 2 && h5 == 2 * h6 + h5 % 2;
    assert h7 == h6 / 2 && h6 == 2 * h7 + h6 % 2;
  }

  lemma BitIs(x: int)
    requires 0 <= x < 2
    ensures Bit(x == 1) == x
  {}

  lemma Halves(b: Byte)
    ensures Composed(b, ByteBits(b))
  {
    hide AddsUp, Bit, Composed;
    Quotients(b);
    BitIs(b / 128);
    BitIs(b / 64 % 2);
    BitIs(b / 32 % 2);
    BitIs(b / 16 % 2);
    BitIs(b / 8 % 2);
    BitIs(b / 4 % 2);
    BitIs(b / 2 % 2);
    BitIs(b % 2);
    ComposedIs(b, ByteBits(b));
  }

  lemma FourDigits(n: int, v: int, w: int, x: int, y: int)
    requires 0 <= v < 64 && 0 <= w < 64 && 0 <= x < 64 && 0 <= y < 64
    requires n == v * 262144 + w * 4096 + x * 64 + y
    ensures n / 262144 % 64 == v && n / 4096 % 64 == w && n / 64 % 64 == x && n % 64 == y
  {
    assert n / 64 == v * 4096 + w * 64 + x;
    assert n / 4096 == v * 64 + w;
    assert n / 262144 == v;
  }

  lemma QuadValues(a: Byte, b: Byte, c: Byte)
    ensures var n := a * 65536 + b * 256 + c;
            && n / 262144 % 64 == a / 4
            && n / 4096 % 64 == a % 4 * 16 + b / 16
            && n / 64 % 64 == b % 16 * 4 + c / 64
            && n % 64 == c % 64
  {
    FourDigits(a * 65536 + b * 256 + c, a / 4, a % 4 * 16 + b / 16, b % 16 * 4 + c / 64, c % 64);
  }

  // ----- Groups of bits -----

  lemma {:induction false} LettersSix(x: seq<bool>, rest: seq<bool>)
    requires |x| == 6
    ensures Letters(x + rest) == [Symbol(SextetOf(x))] + Letters(rest)
  {
    hide SextetOf, Symbol;
    assert (x + rest)[..6] == x && (x + rest)[6..] == rest;
  }

  // The sextets of three bytes.
  function Sextets(x: seq<bool>, y: seq<bool>, z: seq<bool>): seq<Sextet>
    requires |x| == |y| == |z| == 8
  {
    [SextetOf(x[..6]), SextetOf(x[6..] + y[..4]), SextetOf(y[4..] + z[..2]), SextetOf(z[2..])]
  }

  lemma {:induction false} LettersThree(x: seq<bool>, y: seq<bool>, z: seq<bool>, rest: seq<bool>)
    requires |x| == |y| == |z| == 8
    ensures var v := Sextets(x, y, z);
            Letters(x + (y + (z + rest))) == [Symbol(v[0]), Symbol(v[1]), Symbol(v[2]), Symbol(v[3])] + Letters(rest)
  {
    hide Letters, SextetOf, Symbol;
    var s0, s1, s2, s3 := x[..6], x[6..] + y[..4], y[4..] + z[..2], z[2..];
    assert x + (y + (z + rest)) == s0 + (s1 + (s2 + (s3 + rest)));
    LettersSix(s0, s1 + (s2 + (s3 + rest)));
    LettersSix(s1, s2 + (s3 + rest));
    LettersSix(s2, s3 + rest);
    LettersSix(s3, rest);
  }

  lemma TripleSextets(a: Byte, b: Byte, c: Byte)
    ensures var v := Sextets(ByteBits(a), ByteBits(b), ByteBits(c));
            Quad(a, b, c) == [Symbol(v[0]), Symbol(v[1]), Symbol(v[2]), Symbol(v[3])]
  {
    hide Letter, Symbol, ByteBits;
    QuadValues(a, b, c);
    Halves(a);
    Halves(b);
    Halves(c);
    var v := Sextets(ByteBits(a), ByteBits(b), ByteBits(c));
    LetterIsSymbol(v[0]);
    LetterIsSymbol(v[1]);
    LetterIsSymbol(v[2]);
    LetterIsSymbol(v[3]);
  }

  lemma {:induction false} BitsCons(bytes: seq<Byte>)
    requires |bytes| >= 3
    ensures BitsOf(bytes) == ByteBits(bytes[0]) + (ByteBits(bytes[1]) + (ByteBits(bytes[2]) + BitsOf(bytes[3..])))
  {
    hide BitsOf, ByteBits;
    BitsOne(bytes);
    BitsOne(bytes[1..]);
    BitsOne(bytes[2..]);
    assert bytes[1..][1..] == bytes[2..] && bytes[2..][1..] == bytes[3..];
  }

  lemma {:induction false} BitsOne(bytes: seq<Byte>)
    requires bytes != []
    ensures BitsOf(bytes) == ByteBits(bytes[0]) + BitsOf(bytes[1..])
  {}

  lemma BitsNone()
    ensures BitsOf([]) == []
  {}

  lemma PaddedAfter(q: string, s: string)
    requires |q| == 4
    ensures Padded(q + s) == q + Padded(s)
  {
    PlusFour(|s|);
  }

  // ----- The last byte or two -----

  lemma {:induction false} BitsOfOne(a: Byte)
    ensures BitsOf([a]) == ByteBits(a)
  {
    hide BitsOf, ByteBits;
    BitsOne([a]);
    BitsNone();
    assert [a][1..] == [] && ByteBits(a) + [] == ByteBits(a);
  }

  lemma {:induction false} BitsTwo(a: Byte, b: Byte)
    ensures BitsOf([a, b]) == ByteBits(a) + ByteBits(b)
  {
    hide BitsOf, ByteBits;
    BitsOne([a, b]);
    assert [a, b][1..] == [b];
    BitsOfOne(b);
  }

  lemma LettersShort(x: seq<bool>)
    requires 0 < |x| < 6
    ensures Letters(x) == [Symbol(SextetOf(x + Zeros(6 - |x|)))]
  {
    hide SextetOf, Symbol;
  }

  lemma OneSextets(a: Byte, x: seq<bool>)
    requires |x| == 8 && Composed(a, x)
    ensures SextetOf(x[..6]) == a / 4 && SextetOf(x[6..] + Zeros(4)) == a * 16 % 64
  {
    assert x[6..] + Zeros(4) == [x[6], x[7], false, false, false, false];
  }

  lemma {:induction false} RfcOne(a: Byte)
    ensures Rfc([a]) == Last1(a)
  {
    hide Letter, Symbol, ByteBits, Letters, SextetOf, Composed;
    var x := ByteBits(a);
    Halves(a);
    OneSextets(a, x);
    BitsOfOne(a);
    assert x == x[..6] + x[6..];
    LettersSix(x[..6], x[6..]);
    LettersShort(x[6..]);
    LetterIsSymbol(a / 4);
    LetterIsSymbol(a * 16 % 64);
  }

  lemma TwoSextets(a: Byte, x: seq<bool>, b: Byte, y: seq<bool>)
    requires |x| == |y| == 8 && Composed(a, x) && Composed(b, y)
    ensures SextetOf(x[..6]) == a / 4 && SextetOf(x[6..] + y[..4]) == a % 4 * 16 + b / 16
    ensures SextetOf(y[4..] + Zeros(2)) == b % 16 * 4
  {
    hide Bit;
    BitIs(0);
    assert y[4..] + Zeros(2) == [y[4], y[5], y[6], y[7], false, false];
    assert x[6..] + y[..4] == [x[6], x[7], y[0], y[1], y[2], y[3]];
  }

  lemma {:induction false} RfcTwo(a: Byte, b: Byte)
    ensures Rfc([a, b]) == Last2(a, b)
  {
    hide Letter, Symbol, ByteBits, Letters, SextetOf, Composed;
    var x, y := ByteBits(a), ByteBits(b);
    Halves(a);
    Halves(b);
    TwoValues(a, b);
    TwoSextets(a, x, b, y);
    BitsTwo(a, b);
    var s0, s1, s2 := x[..6], x[6..] + y[..4], y[4..];
    assert x + y == s0 + (s1 + s2);
    LettersSix(s0, s1 + s2);
    LettersSix(s1, s2);
    LettersShort(s2);
    LetterIsSymbol(a / 4);
    LetterIsSymbol(a % 4 * 16 + b / 16);
    LetterIsSymbol(b % 16 * 4);
  }

  lemma TwoValues(a: Byte, b: Byte)
    ensures var n := a * 256 + b;
            n / 1024 == a / 4 && n / 16 % 64 == a % 4 * 16 + b / 16 && n * 4 % 64 == b % 16 * 4
  {
    var n := a * 256 + b;
    assert n / 16 == a * 16 + b / 16;
  }

  /** What the codec computes in triples and blocks is the encoding of the RFC. */
  lemma {:induction false} EncodedIsRfc(bytes: seq<Byte>)
    ensures Encoded(bytes) == Rfc(bytes)
  {
    hide Quad, Last1, Last2, ByteBits, Symbol, SextetOf;
    if |bytes| == 0 {
      assert Letters([]) == "";
    } else if |bytes| == 1 {
      RfcOne(bytes[0]);
      assert bytes == [bytes[0]];
    } else if |bytes| == 2 {
      RfcTwo(bytes[0], bytes[1]);
      assert bytes == [bytes[0], bytes[1]];
    } else {
      EncodedIsRfc(bytes[3..]);
      RfcAfter(bytes);
    }
  }

  lemma {:induction false} RfcAfter(bytes: seq<Byte>)
    requires |bytes| >= 3
    ensures Rfc(bytes) == Quad(bytes[0], bytes[1], bytes[2]) + Rfc(bytes[3..])
  {
    hide Quad, ByteBits, Symbol, SextetOf, Letters, BitsOf, Padded;
    var a, b, c := bytes[0], bytes[1], bytes[2];
    BitsCons(bytes);
    LettersThree(ByteBits(a), ByteBits(b), ByteBits(c), BitsOf(bytes[3..]));
    TripleSextets(a, b, c);
    PaddedAfter(Quad(a, b, c), Letters(BitsOf(bytes[3..])));
  }

  // ----- The decoding on bits -----

  /** The bits of a sextet, most significant first. */
  function SextetBits(v: Sextet): (r: seq<bool>)
    ensures |r| == 6
  {
    [v / 32 == 1, v / 16 % 2 == 1, v / 8 % 2 == 1, v / 4 % 2 == 1, v / 2 % 2 == 1, v % 2 == 1]
  }

  function LetterBits(s: string): (r: seq<bool>)
    ensures |r| == 6 * |s|
  {
    if s == "" then [] else SextetBits(Code(s[0])) + LetterBits(s[1..])
  }

  function Weighed(p: nat, q: nat, r: nat, s: nat, t: nat, u: nat, v: nat, w: nat): (n: nat)
    ensures p <= 1 && q <= 1 && r <= 1 && s <= 1 && t <= 1 && u <= 1 && v <= 1 && w <= 1 ==> n < 256
  {
    128 * p + 64 * q + 32 * r + 16 * s + 8 * t + 4 * u + 2 * v + w
  }

  function ByteOf(x: seq<bool>): Byte
    requires |x| == 8
  {
    Weighed(Bit(x[0]), Bit(x[1]), Bit(x[2]), Bit(x[3]), Bit(x[4]), Bit(x[5]), Bit(x[6]), Bit(x[7]))
  }

  /** A byte for each eight bits; fewer at the end are dropped. */
  function BytesOf(bits: seq<bool>): seq<Byte> {
    if |bits| < 8 then [] else [ByteOf(bits[..8])] + BytesOf(bits[8..])
  }

  lemma {:induction false} LetterBitsConcat(a: string, b: string)
    ensures LetterBits(a + b) == LetterBits(a) + LetterBits(b)
  {
    hide SextetBits;
    if a == "" {
      assert a + b == b;
    } else {
      assert (a + b)[1..] == a[1..] + b;
      LetterBitsConcat(a[1..], b);
      Regroup(SextetBits(Code(a[0])), LetterBits(a[1..]), LetterBits(b));
    }
  }

  lemma {:induction false} BytesConcat(a: seq<bool>, b: seq<bool>, n: nat)
    requires |a| == 8 * n
    ensures BytesOf(a + b) == BytesOf(a) + BytesOf(b)
    decreases n
  {
    hide ByteOf;
    if n == 0 {
      assert a + b == b;
    } else {
      assert (a + b)[..8] == a[..8] && (a + b)[8..] == a[8..] + b;
      BytesConcat(a[8..], b, n - 1);
    }
  }

  // Quotients and remainders of a sextet add up from its binary digits.
  ghost predicate Sums(v: Sextet, p: int, q: int, r: int, s: int, t: int, u: int) {
    && v == 32 * p + 16 * q + 8 * r + 4 * s + 2 * t + u
    && v / 16 == 2 * p + q && v % 16 == 8 * r + 4 * s + 2 * t + u
    && v / 4 == 8 * p + 4 * q + 2 * r + s && v % 4 == 2 * t + u
  }

  ghost predicate Spelled(v: Sextet, x: seq<bool>)
    requires |x| == 6
  {
    Sums(v, Bit(x[0]), Bit(x[1]), Bit(x[2]), Bit(x[3]), Bit(x[4]), Bit(x[5]))
  }

  lemma SextetQuotients(v: Sextet)
    ensures Sums(v, v / 32, v / 16 % 2, v / 8 % 2, v / 4 % 2, v / 2 % 2, v % 2)
  {
    var h1, h2, h3, h4, h5 := v / 2, v / 4, v / 8, v / 16, v / 32;
    assert v == 2 * h1 + v % 2;
    assert h2 == h1 / 2 && h1 == 2 * h2 + h1 % 2;
    assert h3 == h2 / 2 && h2 == 2 * h3 + h2 % 2;
    assert h4 == h3 / 2 && h3 == 2 * h4 + h3 % 2;
    assert h5 == h4 / 2 && h4 == 2 * h5 + h4 % 2;
  }

  lemma SextetSpelled(v: Sextet)
    ensures Spelled(v, SextetBits(v))
  {
    hide Bit, Sums;
    SextetQuotients(v);
    BitIs(v / 32);
    BitIs(v / 16 % 2);
    BitIs(v / 8 % 2);
    BitIs(v / 4 % 2);
    BitIs(v / 2 % 2);
    BitIs(v % 2);
  }

  lemma ThreeBytes(a: Sextet, b: Sextet, c: Sextet, d: Sextet)
    ensures var n := a * 262144 + b * 4096 + c * 64 + d;
            && n / 65536 % 256 == a * 4 + b / 16
            && n / 256 % 256 == b % 16 * 16 + c / 4
            && n % 256 == c % 4 * 64 + d
  {
    var p, q, r := a * 4 + b / 16, b % 16 * 16 + c / 4, c % 4 * 64 + d;
    assert a * 262144 + b * 4096 + c * 64 + d == p * 65536 + q * 256 + r;
    Bytes3(p, q, r);
  }

  // The bytes across two sextets, by their digits and by their bits.
  lemma WeighedAcross(a: Sextet, p: nat, q: nat, r: nat, s: nat, t: nat, u: nat,
                      b: Sextet, p': nat, q': nat, r': nat, s': nat, t': nat, u': nat)
    requires Sums(a, p, q, r, s, t, u) && Sums(b, p', q', r', s', t', u')
    ensures Weighed(p, q, r, s, t, u, p', q') == a * 4 + b / 16
    ensures Weighed(r, s, t, u, p', q', r', s') == a % 16 * 16 + b / 4
    ensures Weighed(t, u, p', q', r', s', t', u') == a % 4 * 64 + b
  {}

  lemma {:induction false} BytesAcross(a: Sextet, x: seq<bool>, b: Sextet, y: seq<bool>)
    requires |x| == |y| == 6 && Spelled(a, x) && Spelled(b, y)
    ensures ByteOf(x + y[..2]) == a * 4 + b / 16
    ensures ByteOf(x[2..] + y[..4]) == a % 16 * 16 + b / 4
    ensures ByteOf(x[4..] + y) == a % 4 * 64 + b
  {
    hide Bit, Sums, Weighed;
    WeighedAcross(a, Bit(x[0]), Bit(x[1]), Bit(x[2]), Bit(x[3]), Bit(x[4]), Bit(x[5]),
                  b, Bit(y[0]), Bit(y[1]), Bit(y[2]), Bit(y[3]), Bit(y[4]), Bit(y[5]));
  }

  lemma {:induction false} BytesCut(p: seq<bool>, q: seq<bool>)
    requires |p| == 8
    ensures BytesOf(p + q) == [ByteOf(p)] + BytesOf(q)
  {
    hide ByteOf;
    assert (p + q)[..8] == p && (p + q)[8..] == q;
  }

  lemma {:induction false} FourLetters(a: char, b: char, c: char, d: char)
    ensures LetterBits([a, b]) == SextetBits(Code(a)) + SextetBits(Code(b))
    ensures LetterBits([a, b, c]) == SextetBits(Code(a)) + SextetBits(Code(b)) + SextetBits(Code(c))
    ensures LetterBits([a, b, c, d])
         == SextetBits(Code(a)) + SextetBits(Code(b)) + SextetBits(Code(c)) + SextetBits(Code(d))
  {
    hide LetterBits, SextetBits, Code;
    OneLetter(a);
    OneLetter(b);
    OneLetter(c);
    OneLetter(d);
    LetterBitsConcat([a], [b]);
    LetterBitsConcat([a, b], [c]);
    LetterBitsConcat([a, b, c], [d]);
    assert [a] + [b] == [a, b] && [a, b] + [c] == [a, b, c] && [a, b, c] + [d] == [a, b, c, d];
  }

  lemma {:induction false} OneLetter(c: char)
    ensures LetterBits([c]) == SextetBits(Code(c))
  {
    hide SextetBits, Code;
    assert [c][1..] == "" && LetterBits("") == [];
  }

  lemma {:induction false} GroupBytes(a: char, b: char, c: char, d: char)
    ensures BytesOf(LetterBits([a, b, c, d])) == Triple(a, b, c, d)
    ensures BytesOf(LetterBits([a, b, c])) == Tail1(a, b, c)
    ensures BytesOf(LetterBits([a, b])) == Tail2(a, b)
  {
    hide LetterBits, SextetBits, Code, BytesOf, ByteOf, Spelled;
    var x, y, z, u := SextetBits(Code(a)), SextetBits(Code(b)), SextetBits(Code(c)), SextetBits(Code(d));
    FourLetters(a, b, c, d);
    SextetSpelled(Code(a));
    SextetSpelled(Code(b));
    SextetSpelled(Code(c));
    SextetSpelled(Code(d));
    BytesAcross(Code(a), x, Code(b), y);
    BytesAcross(Code(b), y, Code(c), z);
    BytesAcross(Code(c), z, Code(d), u);
    ThreeBytes(Code(a), Code(b), Code(c), Code(d));
    TwoBytes(Code(a), Code(b), Code(c));
    var p, q, r := x + y[..2], y[2..] + z[..4], z[4..] + u;
    assert x + y + z + u == p + (q + (r + []));
    assert x + y + z == p + (q + z[4..]);
    assert x + y == p + y[2..];
    BytesCut(p, q + (r + []));
    BytesCut(q, r + []);
    BytesCut(r, []);
    BytesCut(p, q + z[4..]);
    BytesCut(q, z[4..]);
    BytesCut(p, y[2..]);
    TooShort([]);
    TooShort(y[2..]);
    TooShort(z[4..]);
  }

  lemma TooShort(x: seq<bool>)
    requires |x| < 8
    ensures BytesOf(x) == []
  {}

  lemma TwoBytes(a: Sextet, b: Sextet, c: Sextet)
    ensures var n := a * 1024 + b * 16 + c / 4; n / 256 % 256 == a * 4 + b / 16 && n % 256 == b % 16 * 16 + c / 4
    ensures (a * 4 + b / 16) % 256 == a * 4 + b / 16
  {
    var n := a * 1024 + b * 16 + c / 4;
    assert n == (a * 4 + b / 16) * 256 + (b % 16 * 16 + c / 4);
  }

  // Four letters are three bytes, so whole groups in front do not shift the rest.
  lemma {:induction false} GroupsInFront(a: string, b: string, k: nat)
    requires |a| == 4 * k
    ensures BytesOf(LetterBits(a + b)) == BytesOf(LetterBits(a)) + BytesOf(LetterBits(b))
  {
    hide LetterBits, BytesOf;
    LetterBitsConcat(a, b);
    BytesConcat(LetterBits(a), LetterBits(b), 3 * k);
  }

  lemma NoBytes()
    ensures BytesOf(LetterBits("")) == []
  {}

  lemma {:induction false} TriplesAreBits(s: string, k: nat)
    requires 4 * k <= |s|
    ensures Triples(s, k) == BytesOf(LetterBits(s[..4 * k]))
  {
    hide Triples, LetterBits, BytesOf, Triple;
    if k == 0 {
      TriplesNone(s);
      NoBytes();
      assert s[..0] == "";
    } else {
      var i := 4 * k - 4;
      TriplesAreBits(s, k - 1);
      TriplesOn(s, k - 1);
      GroupBytes(s[i], s[i + 1], s[i + 2], s[i + 3]);
      assert s[..4 * k] == s[..i] + [s[i], s[i + 1], s[i + 2], s[i + 3]];
      GroupsInFront(s[..i], [s[i], s[i + 1], s[i + 2], s[i + 3]], k - 1);
    }
  }

  /**
    * What the codec reads, in groups of four and a padded one, is what the RFC reads from the stream of bits
    * of the letters before the padding, for letters of either alphabet, whatever the bits left over.
    */
  lemma {:induction false} DecodedIsRfc(s: string)
    requires |s| % 4 == 0 && (Pad(s) == |s| || Pad(s) % 4 >= 2)
    ensures Decoded(s) == Some(BytesOf(LetterBits(s[..Pad(s)])))
  {
    hide Triples, LetterBits, BytesOf, Triple, Tail1, Tail2, Pad, Groups, RestBytes;
    var n, k := Pad(s), 4 * Groups(s);
    RestIs(s);
    GroupsAre(s);
    TriplesAreBits(s, Groups(s));
    assert s[..n] == s[..k] + s[k..n];
    GroupsInFront(s[..k], s[k..n], Groups(s));
    if n == |s| {
      assert s[k..n] == "";
      NoBytes();
    } else if n % 4 == 2 {
      assert s[k..n] == [s[k], s[k + 1]];
      GroupBytes(s[k], s[k + 1], s[k], s[k]);
    } else {
      assert s[k..n] == [s[k], s[k + 1], s[k + 2]];
      GroupBytes(s[k], s[k + 1], s[k + 2], s[k]);
    }
  }

  lemma GroupsAre(s: string)
    requires |s| % 4 == 0 && (Pad(s) == |s| || Pad(s) % 4 >= 2)
    ensures 4 * Groups(s) == Pad(s) - Pad(s) % 4
  {
    hide Pad;
  }
}
