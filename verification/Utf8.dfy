/**
  * UTF-8 (section 3 of RFC 3629): the encoder and the decoder of the byte buffer, against the
  * encoding of one code point. Shifts and masks are written as the arithmetic they stand for:
  * `n >> 6 | 192` on an `n` below 2048 is `192 + n / 64`, `n & 63` is `n % 64`.
  */
module Utf8 {
  import opened Wrappers

  type Unit = u: nat | u < 0x1_0000
  type Scalar = c: nat | c < 0x11_0000 && !(0xD800 <= c < 0xE000)

  const REPLACEMENT: Scalar := 0xFFFD

  // ----- One code point, as bytes and as UTF-16 units -----

  function EncodeScalar(c: Scalar): (bs: seq<Byte>)
    ensures 1 <= |bs| <= 4
  {
    if c < 0x80 then [c]
    else if c < 0x800 then [192 + c / 64, 128 + c % 64]
    else if c < 0x1_0000 then [224 + c / 4096, 128 + c / 64 % 64, 128 + c % 64]
    else [240 + c / 262144, 128 + c / 4096 % 64, 128 + c / 64 % 64, 128 + c % 64]
  }

  function UnitsOf(c: Scalar): (us: seq<Unit>)
    ensures 1 <= |us| <= 2
  {
    if c < 0x1_0000 then [c]
    else [55296 + (c - 0x1_0000) / 1024, 56320 + (c - 0x1_0000) % 1024]
  }

  function Encoded(cs: seq<Scalar>): seq<Byte> {
    if cs == [] then [] else EncodeScalar(cs[0]) + Encoded(cs[1..])
  }

  /** The UTF-16 form of a string of code points: every well-formed string is one. */
  function Units(cs: seq<Scalar>): seq<Unit> {
    if cs == [] then [] else UnitsOf(cs[0]) + Units(cs[1..])
  }

  // ----- The decoder -----

  /** How many bytes a character takes, by its first byte. */
  function WidthOf(b: Byte): (l: nat)
    ensures 1 <= l <= 4
  {
    if b > 239 then 4 else if b > 223 then 3 else if b > 191 then 2 else 1
  }

  // The code point spelled by two, three or four bytes, if they spell one.
  function Join2(c: nat, o: nat): Option<Scalar> {
    var a: nat := c % 32 * 64 + o % 64;
    if o / 64 == 2 && 127 < a then Some(a) else None
  }

  function Join3(c: nat, o: nat, u: nat): Option<Scalar> {
    var a: nat := c % 16 * 4096 + o % 64 * 64 + u % 64;
    if o / 64 == 2 && u / 64 == 2 && 2047 < a && (a < 55296 || a > 57343) then Some(a) else None
  }

  function Join4(c: nat, o: nat, u: nat, s: nat): Option<Scalar> {
    var a: nat := c % 16 * 262144 + o % 64 * 4096 + u % 64 * 64 + s % 64;
    if o / 64 == 2 && u / 64 == 2 && s / 64 == 2 && 65535 < a < 1114112 then Some(a) else None
  }

  /** The code point at the front of `bs`, unless those bytes are not well formed. */
  function FirstScalar(bs: seq<Byte>): (r: Option<Scalar>)
    requires bs != []
    ensures r.Some? ==> WidthOf(bs[0]) <= |bs|
  {
    var l := WidthOf(bs[0]);
    if |bs| < l then None
    else if l == 1 then if bs[0] < 128 then Some(bs[0]) else None
    else if l == 2 then Join2(bs[0], bs[1])
    else if l == 3 then Join3(bs[0], bs[1], bs[2])
    else Join4(bs[0], bs[1], bs[2], bs[3])
  }

  /** What decoding `bs` must give: bytes that start no character count for one replacement each. */
  function Decoded(bs: seq<Byte>): seq<Unit> {
    if bs == [] then []
    else
      match FirstScalar(bs)
      case Some(c) => UnitsOf(c) + Decoded(bs[WidthOf(bs[0])..])
      case None => [REPLACEMENT] + Decoded(bs[1..])
  }

  function Slice(buf: seq<Byte>, start: nat, end: nat): seq<Byte> {
    var n := if end < |buf| then end else |buf|;
    if start <= n then buf[start..n] else []
  }

  /** The code point to push for the byte at `i`, and how far to move on. */
  function Step(buf: seq<Byte>, i: nat, end: nat): (r: (Scalar, nat))
    requires i < end && i < |buf|
    ensures 1 <= r.1 && i + r.1 <= end && i + r.1 <= |buf|
  {
    match FirstScalar(Slice(buf, i, end))
    case Some(c) => (c, WidthOf(buf[i]))
    case None => (REPLACEMENT, 1)
  }

  /** Push a code point as one unit or as a surrogate pair. */
  method Push(units: seq<Unit>, c: Scalar) returns (r: seq<Unit>)
    ensures r == units + UnitsOf(c)
  {
    r := units;
    var f: nat := c;
    if f > 65535 {
      f := f - 65536;
      r := r + [55296 + f / 1024 % 1024];
      f := 56320 + f % 1024;
    }
    r := r + [f];
  }

  method Decode(buf: seq<Byte>, start: nat, end: nat) returns (units: seq<Unit>)
    ensures units == Decoded(Slice(buf, start, end))
  {
    hide Decoded, Slice, Step, UnitsOf;
    var n := if end < |buf| then end else |buf|;
    units := [];
    var i := start;
    while i < n
      invariant start <= i
      invariant units + Decoded(Slice(buf, i, end)) == Decoded(Slice(buf, start, end))
    {
      var (code, l) := Step(buf, i, end);
      DecodedStep(buf, i, end);
      Regroup(units, UnitsOf(code), Decoded(Slice(buf, i + l, end)));
      units := Push(units, code);
      i := i + l;
    }
    DecodedNone(buf, i, end);
  }

  lemma DecodedNone(buf: seq<Byte>, i: nat, end: nat)
    requires end <= i || |buf| <= i
    ensures Decoded(Slice(buf, i, end)) == []
  {}

  lemma DecodedStep(buf: seq<Byte>, i: nat, end: nat)
    requires i < end && i < |buf|
    ensures var (code, l) := Step(buf, i, end);
            Decoded(Slice(buf, i, end)) == UnitsOf(code) + Decoded(Slice(buf, i + l, end))
  {
    var bs, l := Slice(buf, i, end), Step(buf, i, end).1;
    assert bs[l..] == Slice(buf, i + l, end);
  }

  // ----- Decoding undoes encoding -----

  lemma Join2Spelled(c: nat)
    requires 0x80 <= c < 0x800
    ensures Join2(192 + c / 64, 128 + c % 64) == Some(c)
  {}

  lemma Join3Spelled(c: Scalar)
    requires 0x800 <= c < 0x1_0000
    ensures Join3(224 + c / 4096, 128 + c / 64 % 64, 128 + c % 64) == Some(c)
  {
    var d := c / 64;
    assert c == d * 64 + c % 64 && d == d / 64 * 64 + d % 64 && d / 64 == c / 4096;
  }

  lemma Join4Spelled(c: Scalar)
    requires 0x1_0000 <= c
    ensures Join4(240 + c / 262144, 128 + c / 4096 % 64, 128 + c / 64 % 64, 128 + c % 64) == Some(c)
  {
    var d := c / 64;
    var e := d / 64;
    assert c == d * 64 + c % 64 && d == e * 64 + d % 64 && e == c / 4096;
    assert e == e / 64 * 64 + e % 64 && e / 64 == c / 262144;
  }

  lemma DecodeFirst(c: Scalar, rest: seq<Byte>)
    ensures FirstScalar(EncodeScalar(c) + rest) == Some(c) && WidthOf(EncodeScalar(c)[0]) == |EncodeScalar(c)|
  {
    hide Join2, Join3, Join4;
    if 0x80 <= c < 0x800 { Join2Spelled(c); } else if 0x800 <= c < 0x1_0000 { Join3Spelled(c); }
    else if c >= 0x1_0000 { Join4Spelled(c); }
  }

  // Bytes that join to a code point are the ones that spell it.
  lemma Continuing(b: Byte)
    requires b / 64 == 2
    ensures b == 128 + b % 64
  {}

  lemma Leading(b: Byte)
    ensures WidthOf(b) == 2 ==> b == 192 + b % 32
    ensures WidthOf(b) == 3 ==> b == 224 + b % 16
    ensures WidthOf(b) == 4 ==> b == 240 + b % 16
  {}

  lemma Spelled2(b: Byte, o: Byte)
    requires WidthOf(b) == 2 && Join2(b, o).Some?
    ensures EncodeScalar(Join2(b, o).value) == [b, o]
  {
    Leading(b);
    Continuing(o);
  }

  lemma Spelled3(b: Byte, o: Byte, u: Byte)
    requires WidthOf(b) == 3 && Join3(b, o, u).Some?
    ensures EncodeScalar(Join3(b, o, u).value) == [b, o, u]
  {
    hide WidthOf;
    Leading(b);
    Continuing(o);
    Continuing(u);
    FourDigits(0, b % 16, o % 64, u % 64);
  }

  lemma Spelled4(b: Byte, o: Byte, u: Byte, s: Byte)
    requires WidthOf(b) == 4 && Join4(b, o, u, s).Some?
    ensures EncodeScalar(Join4(b, o, u, s).value) == [b, o, u, s]
  {
    hide WidthOf;
    Leading(b);
    Continuing(o);
    Continuing(u);
    Continuing(s);
    FourDigits(b % 16, o % 64, u % 64, s % 64);
  }

  lemma FourDigits(h: nat, m: nat, n: nat, l: nat)
    requires m < 64 && n < 64 && l < 64
    ensures var c := h * 262144 + m * 4096 + n * 64 + l;
            c / 262144 == h && c / 4096 % 64 == m && c / 64 % 64 == n && c % 64 == l
  {
    var c := h * 262144 + m * 4096 + n * 64 + l;
    assert c / 64 == h * 4096 + m * 64 + n;
    assert c / 4096 == h * 64 + m;
  }

  /** For all bytes: a character is read exactly where its encoding stands, and nothing else is taken for one. */
  lemma {:induction false} FirstScalarIff(bs: seq<Byte>, c: Scalar)
    requires bs != []
    ensures FirstScalar(bs) == Some(c) <==> EncodeScalar(c) <= bs
    ensures FirstScalar(bs) == Some(c) ==> WidthOf(bs[0]) == |EncodeScalar(c)|
  {
    hide Join2, Join3, Join4;
    if EncodeScalar(c) <= bs {
      DecodeFirst(c, bs[|EncodeScalar(c)|..]);
      assert bs == EncodeScalar(c) + bs[|EncodeScalar(c)|..];
    }
    if FirstScalar(bs) == Some(c) {
      var l := WidthOf(bs[0]);
      if l == 2 { Spelled2(bs[0], bs[1]); }
      else if l == 3 { Spelled3(bs[0], bs[1], bs[2]); }
      else if l == 4 { Spelled4(bs[0], bs[1], bs[2], bs[3]); }
    }
  }

  /** Any bytes: at the encoding of a character it is read, at any other byte a replacement. */
  lemma {:induction false} DecodedIs(bs: seq<Byte>)
    ensures bs == [] ==> Decoded(bs) == []
    ensures forall c: Scalar :: EncodeScalar(c) <= bs ==> Decoded(bs) == UnitsOf(c) + Decoded(bs[|EncodeScalar(c)|..])
    ensures bs != [] && (forall c: Scalar :: !(EncodeScalar(c) <= bs)) ==>
              Decoded(bs) == [REPLACEMENT] + Decoded(bs[1..])
  {
    hide EncodeScalar, UnitsOf, FirstScalar;
    forall c: Scalar | EncodeScalar(c) <= bs
      ensures Decoded(bs) == UnitsOf(c) + Decoded(bs[|EncodeScalar(c)|..])
    {
      FirstScalarIff(bs, c);
    }
    if bs != [] && FirstScalar(bs).Some? { FirstScalarIff(bs, FirstScalar(bs).value); }
  }

  lemma {:induction false} DecodeAfterEncode(cs: seq<Scalar>, rest: seq<Byte>)
    ensures Decoded(Encoded(cs) + rest) == Units(cs) + Decoded(rest)
  {
    if cs == [] {
      assert Encoded(cs) + rest == rest;
    } else {
      var tail := Encoded(cs[1..]) + rest;
      assert Encoded(cs) + rest == EncodeScalar(cs[0]) + tail;
      DecodeFirst(cs[0], tail);
      assert (EncodeScalar(cs[0]) + tail)[|EncodeScalar(cs[0])|..] == tail;
      DecodeAfterEncode(cs[1..], rest);
    }
  }

  // ----- The encoder -----

  /** What is left of the byte limit; a limit of zero means none. */
  datatype Budget = Unlimited | Left(bytes: int)

  function Spend(b: Budget, k: nat): Budget {
    if b.Unlimited? then b else Left(b.bytes - k)
  }

  predicate Covered(b: Budget) { b.Unlimited? || b.bytes >= 0 }

  predicate IsLead(u: Unit) { 0xD800 <= u < 0xDC00 }

  predicate IsTrail(u: Unit) { 0xDC00 <= u < 0xE000 }

  function Pair(lead: Unit, trail: Unit): Scalar
    requires IsLead(lead) && IsTrail(trail)
  {
    65536 + (lead - 55296) * 1024 + (trail - 56320)
  }

  /**
    * The code points the encoder reads, `lead` being a surrogate read before: one replacement per
    * unpaired surrogate, except that the second of two leads that end the string is lost.
    */
  function Repaired(us: seq<Unit>, lead: Option<Unit>): seq<Scalar>
    requires lead.Some? ==> IsLead(lead.value)
  {
    if us == [] then []
    else if IsTrail(us[0]) then
      (if lead.Some? then [Pair(lead.value, us[0])] else [REPLACEMENT]) + Repaired(us[1..], None)
    else if IsLead(us[0]) then
      if lead.Some? then [REPLACEMENT] + Repaired(us[1..], Some(us[0]))
      else if |us| == 1 then [REPLACEMENT]
      else Repaired(us[1..], Some(us[0]))
    else (if lead.Some? then [REPLACEMENT] else []) + ([us[0]] + Repaired(us[1..], None))
  }

  /** The encoding of as many whole code points, from the first, as the budget covers. */
  function Limited(cs: seq<Scalar>, b: Budget): seq<Byte> {
    if cs == [] || !Covered(Spend(b, |EncodeScalar(cs[0])|)) then []
    else EncodeScalar(cs[0]) + Limited(cs[1..], Spend(b, |EncodeScalar(cs[0])|))
  }

  lemma NothingLeft(cs: seq<Scalar>, b: Budget)
    requires !Covered(b)
    ensures Limited(cs, b) == []
  {}

  // Spend on `c`, and push it if the budget still covers it.
  method Emit(bytes: seq<Byte>, b: Budget, c: Scalar) returns (bytes': seq<Byte>, b': Budget)
    ensures b' == Spend(b, |EncodeScalar(c)|)
    ensures bytes' == if Covered(b') then bytes + EncodeScalar(c) else bytes
  {
    bytes' := bytes;
    if c < 128 {
      b' := Spend(b, 1);
      if Covered(b') { bytes' := bytes + [c]; }
    } else if c < 2048 {
      b' := Spend(b, 2);
      if Covered(b') { bytes' := bytes + [192 + c / 64, 128 + c % 64]; }
    } else if c < 65536 {
      b' := Spend(b, 3);
      if Covered(b') { bytes' := bytes + [224 + c / 4096, 128 + c / 64 % 64, 128 + c % 64]; }
    } else {
      b' := Spend(b, 4);
      if Covered(b') {
        bytes' := bytes + [240 + c / 262144, 128 + c / 4096 % 64, 128 + c / 64 % 64, 128 + c % 64];
      }
    }
  }

  // After `c` has been emitted, what is still to come is the encoding of the rest.
  lemma EmitStep(bytes: seq<Byte>, b: Budget, c: Scalar, cs: seq<Scalar>)
    ensures var b' := Spend(b, |EncodeScalar(c)|);
            (if Covered(b') then bytes + EncodeScalar(c) else bytes) + Limited(cs, b') == bytes + Limited([c] + cs, b)
  {
    hide Limited, EncodeScalar, Spend, Covered;
    var b' := Spend(b, |EncodeScalar(c)|);
    LimitedCons(c, cs, b);
    if Covered(b') {
      Regroup(bytes, EncodeScalar(c), Limited(cs, b'));
    } else {
      NothingLeft(cs, b');
    }
  }

  lemma LimitedCons(c: Scalar, cs: seq<Scalar>, b: Budget)
    ensures var b' := Spend(b, |EncodeScalar(c)|);
            Limited([c] + cs, b) == if Covered(b') then EncodeScalar(c) + Limited(cs, b') else []
  {
    hide EncodeScalar, Spend, Covered;
    assert ([c] + cs)[1..] == cs;
  }

  method Encode(us: seq<Unit>, limit: nat) returns (bytes: seq<Byte>)
    ensures bytes == Limited(Repaired(us, None), if limit == 0 then Unlimited else Left(limit))
  {
    hide Limited, EncodeScalar, Repaired, Spend, Covered, Pair;
    var b := if limit == 0 then Unlimited else Left(limit);
    var lead: Option<Unit> := None;
    bytes := [];
    ghost var all := Limited(Repaired(us, None), b);
    var i := 0;
    assert us[0..] == us;
    while i < |us|
      invariant 0 <= i <= |us|
      invariant lead.Some? ==> IsLead(lead.value)
      invariant bytes + Limited(Repaired(us[i..], lead), b) == all
    {
      var n := us[i];
      RepairedStep(us, i, lead);
      i := i + 1;
      ghost var rest := us[i..];
      if IsLead(n) && lead.None? && i < |us| {
        lead := Some(n);
      } else if IsLead(n) || (IsTrail(n) && lead.None?) {
        EmitStep(bytes, b, REPLACEMENT, Repaired(rest, if lead.None? then None else Some(n)));
        bytes, b := Emit(bytes, b, REPLACEMENT);
        if lead.Some? { lead := Some(n); }
      } else {
        var code: Scalar := 0;
        if IsTrail(n) {
          code := Pair(lead.value, n);
        } else {
          code := n;
          if lead.Some? {
            EmitStep(bytes, b, REPLACEMENT, [code] + Repaired(rest, None));
            bytes, b := Emit(bytes, b, REPLACEMENT);
          }
        }
        lead := None;
        EmitStep(bytes, b, code, Repaired(rest, None));
        bytes, b := Emit(bytes, b, code);
        if !Covered(b) {
          NothingLeft(Repaired(rest, None), b);
          return;
        }
      }
    }
    AllRead(us, i, lead, b);
  }

  lemma AllRead(us: seq<Unit>, i: nat, lead: Option<Unit>, b: Budget)
    requires i == |us| && (lead.Some? ==> IsLead(lead.value))
    ensures Limited(Repaired(us[i..], lead), b) == []
  {}

  lemma RepairedStep(us: seq<Unit>, i: nat, lead: Option<Unit>)
    requires i < |us| && (lead.Some? ==> IsLead(lead.value))
    ensures var n, rest := us[i], us[i + 1..];
            var cs := Repaired(us[i..], lead);
            && (IsLead(n) && lead.None? && rest != [] ==> cs == Repaired(rest, Some(n)))
            && (IsLead(n) && lead.None? && rest == [] ==> cs == [REPLACEMENT] + Repaired(rest, None))
            && (IsLead(n) && lead.Some? ==> cs == [REPLACEMENT] + Repaired(rest, Some(n)))
            && (IsTrail(n) && lead.None? ==> cs == [REPLACEMENT] + Repaired(rest, None))
            && (IsTrail(n) && lead.Some? ==> cs == [Pair(lead.value, n)] + Repaired(rest, None))
            && (!IsLead(n) && !IsTrail(n) && lead.None? ==> cs == [n] + Repaired(rest, None))
            && (!IsLead(n) && !IsTrail(n) && lead.Some? ==> cs == [REPLACEMENT] + ([n] + Repaired(rest, None)))
  {
    assert us[i..][1..] == us[i + 1..];
  }

  // ----- What the encoder promises -----

  /** A well-formed string is read as its code points. */
  lemma {:induction false} RepairedWellFormed(cs: seq<Scalar>)
    ensures Repaired(Units(cs), None) == cs
  {
    if cs != [] {
      var c, rest := cs[0], cs[1..];
      RepairedWellFormed(rest);
      var us := Units(cs);
      if c < 0x1_0000 {
        assert us[1..] == Units(rest);
      } else {
        var v := us[1..];
        assert us[0] == UnitsOf(c)[0] && v[0] == UnitsOf(c)[1];
        assert v[1..] == Units(rest);
        assert Pair(us[0], v[0]) == c;
        assert Repaired(v, Some(us[0])) == [c] + Repaired(Units(rest), None);
      }
    }
  }

  // Characters in front are read as they are.
  lemma {:induction false} RepairedAfter(cs: seq<Scalar>, us: seq<Unit>)
    ensures Repaired(Units(cs) + us, None) == cs + Repaired(us, None)
  {
    hide Repaired, Units, UnitsOf, Pair;
    UnitsCons(cs);
    if cs == [] {
      assert Units(cs) + us == us && cs + Repaired(us, None) == Repaired(us, None);
    } else {
      var c, rest := cs[0], Units(cs[1..]) + us;
      var all := UnitsOf(c) + rest;
      RepairedAfter(cs[1..], us);
      Regroup(UnitsOf(c), Units(cs[1..]), us);
      UnitsAre(c);
      RepairedStep(all, 0, None);
      assert all[0..] == all;
      if c < 0x1_0000 {
        assert all[1..] == rest;
      } else {
        RepairedStep(all, 1, Some(all[0]));
        assert all[2..] == rest;
      }
    }
  }

  lemma UnitsCons(cs: seq<Scalar>)
    ensures Units(cs) == if cs == [] then [] else UnitsOf(cs[0]) + Units(cs[1..])
  {
    hide UnitsOf;
  }

  lemma UnitsAre(c: Scalar)
    ensures c < 0x1_0000 ==> UnitsOf(c) == [c] && !IsLead(c) && !IsTrail(c)
    ensures c >= 0x1_0000 ==>
              var us := UnitsOf(c);
              |us| == 2 && IsLead(us[0]) && IsTrail(us[1]) && Pair(us[0], us[1]) == c
  {}

  /**
    * Surrogates out of pairs, after any characters: each is read as one replacement, except that of two lead
    * surrogates that end the string the second is lost.
    */
  lemma {:induction false} LoneSurrogates(cs: seq<Scalar>, u: Unit, us: seq<Unit>)
    ensures IsTrail(u) ==> Repaired(Units(cs) + ([u] + us), None) == cs + ([REPLACEMENT] + Repaired(us, None))
    ensures IsLead(u) && us == [] ==> Repaired(Units(cs) + ([u] + us), None) == cs + [REPLACEMENT]
    ensures IsLead(u) && us != [] && !IsTrail(us[0]) && !(IsLead(us[0]) && |us| == 1) ==>
              Repaired(Units(cs) + ([u] + us), None) == cs + ([REPLACEMENT] + Repaired(us, None))
    ensures IsLead(u) && |us| == 1 && IsLead(us[0]) ==>
              Repaired(Units(cs) + ([u] + us), None) == cs + [REPLACEMENT]
  {
    hide Repaired, Units;
    RepairedAfter(cs, [u] + us);
    var all := [u] + us;
    assert all[0..] == all && all[1..] == us && us[0..] == us;
    RepairedStep(all, 0, None);
    NothingRead();
    if IsLead(u) && us != [] {
      RepairedStep(us, 0, Some(u));
      RepairedStep(us, 0, None);
      if |us| == 1 { assert us[1..] == []; }
    }
  }

  lemma NothingRead()
    ensures Repaired([], None) == [] && forall u: Unit :: IsLead(u) ==> Repaired([], Some(u)) == []
  {}

  /** Under a limit the output encodes a prefix of whole code points, and no longer one would fit. */
  lemma {:induction false} LimitedIsPrefix(cs: seq<Scalar>, limit: int) returns (k: nat)
    requires limit >= 0
    ensures k <= |cs| && Limited(cs, Left(limit)) == Encoded(cs[..k]) && |Encoded(cs[..k])| <= limit
    ensures forall j :: k < j <= |cs| ==> |Encoded(cs[..j])| > limit
  {
    if cs == [] || |EncodeScalar(cs[0])| > limit {
      k := 0;
      forall j | k < j <= |cs| ensures |Encoded(cs[..j])| > limit {
        assert cs[..j][1..] == cs[1..j];
      }
    } else {
      var w := |EncodeScalar(cs[0])|;
      var k' := LimitedIsPrefix(cs[1..], limit - w);
      k := k' + 1;
      assert cs[..k][1..] == cs[1..][..k'];
      forall j | k < j <= |cs| ensures |Encoded(cs[..j])| > limit {
        assert cs[..j][1..] == cs[1..][..j - 1];
      }
    }
  }

  lemma {:induction false} UnlimitedIsAll(cs: seq<Scalar>)
    ensures Limited(cs, Unlimited) == Encoded(cs)
  {
    if cs != [] { UnlimitedIsAll(cs[1..]); }
  }

  /** Decode after encode, on every well-formed string. */
  lemma RoundTrip(cs: seq<Scalar>)
    ensures Decoded(Limited(Repaired(Units(cs), None), Unlimited)) == Units(cs)
  {
    RepairedWellFormed(cs);
    UnlimitedIsAll(cs);
    DecodeAfterEncode(cs, []);
    assert Encoded(cs) + [] == Encoded(cs);
  }
}
