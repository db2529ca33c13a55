/** Base64, section 4 of RFC 4648, as the bundled codec does it: whole triples in blocks, then the rest. */
module Base64 {
  import opened Wrappers

  type Sextet = v: int | 0 <= v < 64

  // ----- The alphabet -----

  function Letter(v: Sextet): char {
    if v < 26 then 'A' + v as char
    else if v < 52 then 'a' + (v - 26) as char
    else if v < 62 then '0' + (v - 52) as char
    else if v == 62 then '+' else '/'
  }

  /** The value of a letter, in either alphabet of the RFC; anything else counts as zero. */
  function Code(c: char): Sextet {
    if 'A' <= c <= 'Z' then c as int - 'A' as int
    else if 'a' <= c <= 'z' then c as int - 'a' as int + 26
    else if '0' <= c <= '9' then c as int - '0' as int + 52
    else if c == '+' || c == '-' then 62
    else if c == '/' || c == '_' then 63
    else 0
  }

  lemma CodeOfLetter(v: Sextet)
    ensures Code(Letter(v)) == v && Letter(v) != '='
  {}

  // ----- Encoding -----

  function Quad(a: Byte, b: Byte, c: Byte): string {
    var n := a * 65536 + b * 256 + c;
    [Letter(n / 262144 % 64), Letter(n / 4096 % 64), Letter(n / 64 % 64), Letter(n % 64)]
  }

  function Last1(a: Byte): string {
    [Letter(a / 4), Letter(a * 16 % 64)] + "=="
  }

  function Last2(a: Byte, b: Byte): string {
    var n := a * 256 + b;
    [Letter(n / 1024), Letter(n / 16 % 64), Letter(n * 4 % 64)] + "="
  }

  function Encoded(bytes: seq<Byte>): string {
    if bytes == [] then ""
    else if |bytes| == 1 then Last1(bytes[0])
    else if |bytes| == 2 then Last2(bytes[0], bytes[1])
    else Quad(bytes[0], bytes[1], bytes[2]) + Encoded(bytes[3..])
  }

  lemma {:induction false} EncodedConcat(a: seq<Byte>, b: seq<Byte>)
    requires |a| % 3 == 0
    ensures Encoded(a + b) == Encoded(a) + Encoded(b)
  {
    hide Quad, Last1, Last2;
    if a == [] {
      assert a + b == b;
    } else {
      assert (a + b)[3..] == a[3..] + b;
      EncodedConcat(a[3..], b);
    }
  }

  lemma {:induction false} EncodedTriple(a: Byte, b: Byte, c: Byte)
    ensures Encoded([a, b, c]) == Quad(a, b, c)
  {
    assert [a, b, c][3..] == [];
  }

  /** The letters for the triples from `from` up to `end`. */
  method EncodeChunk(bytes: seq<Byte>, from: nat, end: nat) returns (r: string)
    requires from <= end <= |bytes| && (end - from) % 3 == 0
    ensures r == Encoded(bytes[from..end])
  {
    hide Encoded, Quad;
    r := "";
    EncodedNone();
    assert bytes[from..from] == [];
    var i := from;
    while i < end
      invariant from <= i <= end && (end - i) % 3 == 0 && (i - from) % 3 == 0
      invariant r == Encoded(bytes[from..i])
    {
      EncodedTriple(bytes[i], bytes[i + 1], bytes[i + 2]);
      assert bytes[from..i + 3] == bytes[from..i] + [bytes[i], bytes[i + 1], bytes[i + 2]];
      EncodedConcat(bytes[from..i], [bytes[i], bytes[i + 1], bytes[i + 2]]);
      r := r + Quad(bytes[i], bytes[i + 1], bytes[i + 2]);
      i := i + 3;
    }
  }

  lemma EncodedNone()
    ensures Encoded([]) == ""
  {}

  const BLOCK := 16383

  lemma WholeTriples(i: nat, whole: nat)
    requires i % 3 == 0 && whole % 3 == 0 && i < whole
    ensures var end := if i + BLOCK > whole then whole else i + BLOCK; (end - i) % 3 == 0
    ensures (i + BLOCK) % 3 == 0
  {}

  /** All of the bytes: whole triples block by block, then one or two bytes with padding. */
  method FromByteArray(bytes: seq<Byte>) returns (r: string)
    ensures r == Encoded(bytes)
  {
    hide Encoded, Last1, Last2;
    var n := |bytes|;
    var extra := n % 3;
    var whole := n - extra;
    r := "";
    EncodedNone();
    assert bytes[..0] == [];
    var i := 0;
    while i < whole
      invariant 0 <= i && i % 3 == 0 && whole % 3 == 0
      invariant r == Encoded(bytes[..if i < whole then i else whole])
    {
      var end := if i + BLOCK > whole then whole else i + BLOCK;
      WholeTriples(i, whole);
      var chunk := EncodeChunk(bytes, i, end);
      assert bytes[..end] == bytes[..i] + bytes[i..end];
      EncodedConcat(bytes[..i], bytes[i..end]);
      r := r + chunk;
      i := i + BLOCK;
    }
    assert r == Encoded(bytes[..whole]);
    assert bytes == bytes[..whole] + bytes[whole..];
    EncodedConcat(bytes[..whole], bytes[whole..]);
    if extra == 1 {
      assert bytes[whole..] == [bytes[n - 1]];
      EncodedOne(bytes[n - 1]);
      r := r + Last1(bytes[n - 1]);
    } else if extra == 2 {
      assert bytes[whole..] == [bytes[n - 2], bytes[n - 1]];
      EncodedTwo(bytes[n - 2], bytes[n - 1]);
      r := r + Last2(bytes[n - 2], bytes[n - 1]);
    } else {
      assert bytes[whole..] == [];
      assert r + "" == r;
    }
  }

  lemma EncodedOne(a: Byte)
    ensures Encoded([a]) == Last1(a)
  {}

  lemma EncodedTwo(a: Byte, b: Byte)
    ensures Encoded([a, b]) == Last2(a, b)
  {}

  // ----- Decoding -----

  function Triple(a: char, b: char, c: char, d: char): seq<Byte> {
    var n := Code(a) * 262144 + Code(b) * 4096 + Code(c) * 64 + Code(d);
    [n / 65536 % 256, n / 256 % 256, n % 256]
  }

  function Tail2(a: char, b: char): seq<Byte> {
    var n := Code(a) * 4 + Code(b) / 16;
    [n % 256]
  }

  function Tail1(a: char, b: char, c: char): seq<Byte> {
    var n := Code(a) * 1024 + Code(b) * 16 + Code(c) / 4;
    [n / 256 % 256, n % 256]
  }

  /** Where the padding starts, the length if there is none. */
  function Pad(s: string): (n: nat)
    ensures n <= |s|
  {
    if s == "" || s[0] == '=' then 0 else 1 + Pad(s[1..])
  }

  /** The bytes of the first `k` groups of four. */
  function Triples(s: string, k: nat): (r: seq<Byte>)
    requires 4 * k <= |s|
    ensures |r| == 3 * k
  {
    if k == 0 then [] else Triples(s, k - 1) + Triple(s[4 * k - 4], s[4 * k - 3], s[4 * k - 2], s[4 * k - 1])
  }

  /** How many groups of four are read before the one that is padded, if any. */
  function Groups(s: string): nat {
    var n := Pad(s);
    if n == |s| || n % 4 != 0 then n / 4 else if n == 0 then 0 else n / 4 - 1
  }

  /** The bytes of a padded group; padding at its start leaves two bytes that nothing is written to. */
  function PaddedGroup(letters: nat, t: string): seq<Byte>
    requires |t| >= 4
  {
    if letters == 0 then [0, 0]
    else if letters == 1 then []
    else if letters == 2 then Tail2(t[0], t[1])
    else Tail1(t[0], t[1], t[2])
  }

  function RestBytes(s: string): seq<Byte>
    requires |s| % 4 == 0
  {
    var n := Pad(s);
    if n == |s| then [] else PaddedGroup(n % 4, s[4 * Groups(s)..])
  }

  /** The bytes of a string: none if its length is wrong, or if it starts with padding. */
  function Decoded(s: string): Option<seq<Byte>> {
    if |s| % 4 > 0 || (s != "" && Pad(s) == 0) then None else Some(Triples(s, Groups(s)) + RestBytes(s))
  }

  // The size that the padding tells is the number of bytes.
  lemma SizeIs(s: string, n: nat, pad: nat)
    requires |s| % 4 == 0 && n == Pad(s) && pad == if n == |s| then 0 else 4 - n % 4
    ensures 3 * (n + pad) / 4 - pad == if n == 0 && s != "" then -1 else 3 * Groups(s) + |RestBytes(s)|
    ensures forall g: nat :: 4 * g < (if pad > 0 then n - 4 else n) <==> g < Groups(s)
    ensures 4 * Groups(s) <= |s| && (0 < n < |s| ==> 4 * Groups(s) + 3 < |s|)
  {
    hide Pad, Code;
  }

  lemma RestIs(s: string)
    requires |s| % 4 == 0
    ensures var n, k := Pad(s), Groups(s);
            && (n == |s| || n % 4 == 1 ==> RestBytes(s) == [])
            && (n < |s| && n % 4 == 0 ==> RestBytes(s) == [0, 0])
            && (n % 4 == 2 ==> RestBytes(s) == Tail2(s[4 * k], s[4 * k + 1]))
            && (n % 4 == 3 ==> RestBytes(s) == Tail1(s[4 * k], s[4 * k + 1], s[4 * k + 2]))
  {
    hide Pad, Tail1, Tail2;
  }

  /** Groups of four from the start up to `f`, three bytes each, into the buffer. */
  method DecodeGroups(s: string, f: int, ghost k: nat, out: array<Byte>) returns (l: nat, a: nat)
    requires 4 * k <= |s| && 3 * k <= out.Length && forall g: nat :: 4 * g < f <==> g < k
    modifies out
    ensures l == 4 * k && a == 3 * k && out[..a] == Triples(s, k)
    ensures forall i :: a <= i < out.Length ==> out[i] == old(out[i])
  {
    hide Triple, Triples;
    a, l := 0, 0;
    ghost var g: nat := 0;
    TriplesNone(s);
    while l < f
      invariant g <= k && l == 4 * g && a == 3 * g
      invariant out[..a] == Triples(s, g) && forall i :: a <= i < out.Length ==> out[i] == old(out[i])
    {
      assert g < k;
      TripleLength(s[l], s[l + 1], s[l + 2], s[l + 3]);
      TriplesOn(s, g);
      var three := Triple(s[l], s[l + 1], s[l + 2], s[l + 3]);
      out[a], out[a + 1], out[a + 2] := three[0], three[1], three[2];
      assert out[..a + 3] == out[..a] + three;
      a, l, g := a + 3, l + 4, g + 1;
    }
  }

  /** The same, written into a buffer of the size the padding tells. */
  method ToByteArray(s: string) returns (r: Option<array<Byte>>)
    ensures r.None? <==> Decoded(s).None?
    ensures r.Some? ==> fresh(r.value) && r.value[..] == Decoded(s).value
  {
    hide Triple, Tail1, Tail2, Triples, Pad, Groups, RestBytes;
    if |s| % 4 > 0 { return None; }
    var n: int := Pad(s);
    var pad := if n == |s| then 0 else 4 - n % 4;
    var size := 3 * (n + pad) / 4 - pad;
    SizeIs(s, n, pad);
    if size < 0 { return None; }
    var out := new Byte[size](_ => 0);
    var l, a := DecodeGroups(s, if pad > 0 then n - 4 else n, Groups(s), out);
    DecodePadded(s, l, pad, a, out);
    assert out[..] == out[..a] + out[a..];
    return Some(out);
  }

  /** The bytes of the padded group, if any. */
  method DecodePadded(s: string, l: nat, pad: int, a: nat, out: array<Byte>)
    requires |s| % 4 == 0 && l == 4 * Groups(s) && a + |RestBytes(s)| == out.Length
    requires pad == if Pad(s) == |s| then 0 else 4 - Pad(s) % 4
    requires forall i :: a <= i < out.Length ==> out[i] == 0
    modifies out
    ensures out[..a] == old(out[..a]) && out[a..] == RestBytes(s)
  {
    hide Tail1, Tail2, Pad;
    RestIs(s);
    if pad == 2 {
      TailLength(s[l], s[l + 1], s[l]);
      out[a] := Tail2(s[l], s[l + 1])[0];
    } else if pad == 1 {
      TailLength(s[l], s[l + 1], s[l + 2]);
      var two := Tail1(s[l], s[l + 1], s[l + 2]);
      out[a], out[a + 1] := two[0], two[1];
    }
  }

  lemma TripleLength(a: char, b: char, c: char, d: char)
    ensures |Triple(a, b, c, d)| == 3
  {}

  lemma TailLength(a: char, b: char, c: char)
    ensures |Tail2(a, b)| == 1 && |Tail1(a, b, c)| == 2
  {}

  lemma TriplesNone(s: string)
    ensures Triples(s, 0) == []
  {}

  lemma TriplesOn(s: string, k: nat)
    requires 4 * k + 4 <= |s|
    ensures Triples(s, k + 1) == Triples(s, k) + Triple(s[4 * k], s[4 * k + 1], s[4 * k + 2], s[4 * k + 3])
  {}

  // ----- There and back -----

  lemma Regroup3(n: int)
    requires 0 <= n < 16777216
    ensures n / 262144 % 64 * 262144 + n / 4096 % 64 * 4096 + n / 64 % 64 * 64 + n % 64 == n
  {
    var a, b, c := n / 64, n / 4096, n / 262144;
    assert n == 64 * a + n % 64;
    assert b == a / 64 && a == 64 * b + a % 64;
    assert c == b / 64 && b == 64 * c + b % 64;
  }

  lemma Bytes3(a: Byte, b: Byte, c: Byte)
    ensures var n := a * 65536 + b * 256 + c; n / 65536 % 256 == a && n / 256 % 256 == b && n % 256 == c
  {
    var n := a * 65536 + b * 256 + c;
    assert n / 256 == a * 256 + b && n / 65536 == a;
  }

  lemma QuadBack(a: Byte, b: Byte, c: Byte)
    ensures var q := Quad(a, b, c); |q| == 4 && Triple(q[0], q[1], q[2], q[3]) == [a, b, c]
    ensures forall i :: 0 <= i < 4 ==> Quad(a, b, c)[i] != '='
  {
    var n := a * 65536 + b * 256 + c;
    hide Letter, Code;
    Regroup3(n);
    Bytes3(a, b, c);
    CodeOfLetter(n / 262144 % 64);
    CodeOfLetter(n / 4096 % 64);
    CodeOfLetter(n / 64 % 64);
    CodeOfLetter(n % 64);
  }

  lemma Last1Back(a: Byte)
    ensures var q := Last1(a); |q| == 4 && Pad(q) == 2 && Tail2(q[0], q[1]) == [a]
  {
    hide Letter, Code;
    CodeOfLetter(a / 4);
    CodeOfLetter(a * 16 % 64);
    var q := Last1(a);
    PadIs(q, 2);
    assert a * 16 % 64 == a % 4 * 16;
  }

  lemma Last2Back(a: Byte, b: Byte)
    ensures var q := Last2(a, b); |q| == 4 && Pad(q) == 3 && Tail1(q[0], q[1], q[2]) == [a, b]
  {
    hide Letter, Code;
    var n := a * 256 + b;
    CodeOfLetter(n / 1024);
    CodeOfLetter(n / 16 % 64);
    CodeOfLetter(n * 4 % 64);
    Regroup2(n);
    Bytes3(0, a, b);
    PadIs(Last2(a, b), 3);
  }

  lemma Regroup2(n: int)
    requires 0 <= n < 65536
    ensures n / 1024 * 1024 + n / 16 % 64 * 16 + n * 4 % 64 / 4 == n
  {
    var a := n / 16;
    assert n == 16 * a + n % 16;
    assert n / 1024 == a / 64 && a == 64 * (a / 64) + a % 64;
    assert n * 4 == 64 * a + 4 * (n % 16);
  }

  lemma {:induction false} PadIs(s: string, n: nat)
    requires n <= |s| && (n < |s| ==> s[n] == '=') && forall i :: 0 <= i < n ==> s[i] != '='
    ensures Pad(s) == n
  {
    if n > 0 { PadIs(s[1..], n - 1); }
  }

  lemma {:induction false} PadHolds(s: string)
    ensures (Pad(s) < |s| ==> s[Pad(s)] == '=') && forall i :: 0 <= i < Pad(s) ==> s[i] != '='
  {
    if s != "" && s[0] != '=' { PadHolds(s[1..]); }
  }

  lemma {:induction false} TriplesAfter(q: string, s: string, k: nat)
    requires |q| == 4 && 4 * k <= |s|
    ensures Triples(q + s, k + 1) == Triple(q[0], q[1], q[2], q[3]) + Triples(s, k)
  {
    hide Triple, Triples;
    var first := Triple(q[0], q[1], q[2], q[3]);
    TriplesOn(q + s, k);
    if k == 0 {
      TriplesNone(q + s);
      TriplesNone(s);
      assert [] + first == first + [];
    } else {
      TriplesAfter(q, s, k - 1);
      TriplesOn(s, k - 1);
      var last := Triple(s[4 * k - 4], s[4 * k - 3], s[4 * k - 2], s[4 * k - 1]);
      Regroup(first, Triples(s, k - 1), last);
    }
  }

  // One more group of four in front.
  lemma {:induction false} DecodedAfter(q: string, s: string)
    requires |q| == 4 && (forall i :: 0 <= i < 4 ==> q[i] != '=') && Decoded(s).Some?
    ensures Decoded(q + s) == Some(Triple(q[0], q[1], q[2], q[3]) + Decoded(s).value)
  {
    hide Triple, Tail1, Tail2, Triples, Pad;
    PadHolds(s);
    PadIs(q + s, 4 + Pad(s));
    var k := Groups(s);
    TriplesAfter(q, s, k);
    GroupsAfter(q, s);
    PlusFour(|s|);
    assert (q + s)[4..] == s;
    RestAfter(q + s, s);
    Regroup(Triple(q[0], q[1], q[2], q[3]), Triples(s, k), RestBytes(s));
  }

  lemma GroupsAfter(q: string, s: string)
    requires |q| == 4 && Pad(q + s) == 4 + Pad(s) && (Pad(s) == 0 ==> s == "")
    requires |s| % 4 == 0
    ensures Groups(q + s) == Groups(s) + 1
  {
    hide Pad;
  }

  lemma RestAfter(t: string, s: string)
    requires |s| % 4 == 0 && |t| % 4 == 0 && |t| == 4 + |s| && t[4..] == s
    requires Pad(t) == 4 + Pad(s) && Groups(t) == Groups(s) + 1
    ensures RestBytes(t) == RestBytes(s)
  {
    hide Pad, PaddedGroup, Groups, RestBytes;
    GroupsFit(s);
    PlusFour(Pad(s));
    var k := 4 * Groups(s);
    assert t[4 + k..] == t[4..][k..];
    RestFrom(s, Pad(s), k);
    RestFrom(t, 4 + Pad(s), 4 + k);
  }

  lemma GroupsFit(s: string)
    ensures 4 * Groups(s) <= |s|
  {
    hide Pad;
  }

  lemma PlusFour(n: nat)
    ensures (4 + n) % 4 == n % 4
  {}

  lemma RestFrom(s: string, n: nat, k: nat)
    requires |s| % 4 == 0 && n == Pad(s) && k == 4 * Groups(s)
    ensures n < |s| ==> |s[k..]| >= 4 && RestBytes(s) == PaddedGroup(n % 4, s[k..])
    ensures n == |s| ==> RestBytes(s) == []
  {
    hide Pad, PaddedGroup;
  }

  /** Decoding what was encoded gives the bytes back, for every length. */
  lemma {:induction false} RoundTrip(bytes: seq<Byte>)
    ensures Decoded(Encoded(bytes)) == Some(bytes)
  {
    hide Quad, Triple, Decoded, Last1, Last2;
    if bytes == [] {
      RoundTripNone();
    } else if |bytes| == 1 {
      RoundTripOne(bytes[0]);
      assert bytes == [bytes[0]];
    } else if |bytes| == 2 {
      RoundTripTwo(bytes[0], bytes[1]);
      assert bytes == [bytes[0], bytes[1]];
    } else {
      var q := Quad(bytes[0], bytes[1], bytes[2]);
      QuadBack(bytes[0], bytes[1], bytes[2]);
      RoundTrip(bytes[3..]);
      DecodedAfter(q, Encoded(bytes[3..]));
      assert bytes == [bytes[0], bytes[1], bytes[2]] + bytes[3..];
    }
  }

  lemma RoundTripNone()
    ensures Decoded("") == Some([])
  {
    var none: seq<Byte> := [];
    TriplesNone("");
    assert none + none == none;
  }

  lemma {:induction false} RoundTripOne(a: Byte)
    ensures Decoded(Last1(a)) == Some([a])
  {
    hide Last1, Tail2, Pad;
    Last1Back(a);
    TriplesNone(Last1(a));
    assert [] + [a] == [a];
  }

  lemma {:induction false} RoundTripTwo(a: Byte, b: Byte)
    ensures Decoded(Last2(a, b)) == Some([a, b])
  {
    hide Last2, Tail1, Pad;
    Last2Back(a, b);
    TriplesNone(Last2(a, b));
    assert [] + [a, b] == [a, b];
  }
}
