/** Chunking does not matter: any cutting of well-formed bytes decodes like the whole. */
module StringDecoderProof {
  import opened Wrappers
  import opened Utf8
  import opened StringDecoder

  /** `t` is the start of the encoding of `c`, but not all of it. */
  predicate Starts(t: seq<Byte>, c: Scalar) {
    0 < |t| < |EncodeScalar(c)| && t == EncodeScalar(c)[..|t|]
  }

  ghost predicate CutOff(t: seq<Byte>) {
    t == [] || exists c: Scalar :: Starts(t, c)
  }

  /** The decoder holds exactly the bytes `t` of a character cut off. */
  predicate Holds(d: State, t: seq<Byte>) {
    && Sound(d)
    && (if t == [] then d.need == 0
        else d.total == WidthOf(t[0]) && d.need + |t| == d.total && d.need > 0 && d.held[..|t|] == t)
  }

  // ----- One character -----

  lemma ByteKinds(c: Scalar, k: nat)
    requires k < |EncodeScalar(c)|
    ensures k == 0 ==> CheckByte(EncodeScalar(c)[0]) == if |EncodeScalar(c)| == 1 then 0 else |EncodeScalar(c)|
    ensures k > 0 ==> EncodeScalar(c)[k] / 64 == 2 && CheckByte(EncodeScalar(c)[k]) == -1
    ensures WidthOf(EncodeScalar(c)[0]) == |EncodeScalar(c)|
  {}

  // The end of `s` is the first `m` bytes of a character: the decoder sees how many are missing.
  lemma IncompleteEnd(pre: seq<Byte>, c: Scalar, m: nat)
    requires 1 <= m <= |EncodeScalar(c)|
    ensures var w := |EncodeScalar(c)|;
            var r := CheckIncomplete(pre + EncodeScalar(c)[..m]);
            r.1 == w - m && (m < w ==> r.0 == w)
  {
    var e := EncodeScalar(c);
    var s := pre + e[..m];
    ByteKinds(c, 0);
    assert s[|s| - m] == e[0];
    if m >= 2 { ByteKinds(c, m - 1); assert s[|s| - 1] == e[m - 1]; }
    if m >= 3 { ByteKinds(c, m - 2); assert s[|s| - 2] == e[m - 2]; }
    if m >= 4 { ByteKinds(c, m - 3); assert s[|s| - 3] == e[m - 3]; }
    hide EncodeScalar, CheckByte;
  }

  lemma {:induction false} EncodedLast(cs: seq<Scalar>)
    requires cs != []
    ensures Encoded(cs) == Encoded(cs[..|cs| - 1]) + EncodeScalar(cs[|cs| - 1])
  {
    hide *;
    var n := |cs| - 1;
    EncodedSplit(cs[..n], [cs[n]]);
    assert cs == cs[..n] + [cs[n]];
    EncodedOne(cs[n]);
  }

  lemma EncodedOne(c: Scalar)
    ensures Encoded([c]) == EncodeScalar(c) && Units([c]) == UnitsOf(c)
  {
    hide EncodeScalar, UnitsOf;
    assert Encoded([c]) == EncodeScalar(c) + [];
    assert Units([c]) == UnitsOf(c) + [];
  }

  // ----- A run of whole characters and a cut-off one -----

  lemma TextStep(d: State, cs: seq<Scalar>, t: seq<Byte>)
    requires Holds(d, []) && CutOff(t)
    ensures var (d', out) := Text(d, Encoded(cs) + t); out == Units(cs) && Holds(d', t)
  {
    var s := Encoded(cs) + t;
    assert CheckIncomplete(s).1 == (if t == [] then 0 else WidthOf(t[0]) - |t|) &&
           (t != [] ==> CheckIncomplete(s).0 == WidthOf(t[0])) by {
      if t == [] {
        assert s == Encoded(cs);
        if cs != [] {
          EncodedLast(cs);
          var c := cs[|cs| - 1];
          IncompleteEnd(Encoded(cs[..|cs| - 1]), c, |EncodeScalar(c)|);
          assert EncodeScalar(c)[..|EncodeScalar(c)|] == EncodeScalar(c);
        }
      } else {
        var c :| Starts(t, c);
        IncompleteEnd(Encoded(cs), c, |t|);
        ByteKinds(c, 0);
      }
    }
    TextSplit(d, cs, t);
  }

  lemma TextSplit(d: State, cs: seq<Scalar>, t: seq<Byte>)
    requires Holds(d, []) && |t| <= 3
    requires CheckIncomplete(Encoded(cs) + t).1 == if t == [] then 0 else WidthOf(t[0]) - |t|
    requires t != [] ==> |t| < WidthOf(t[0]) && CheckIncomplete(Encoded(cs) + t).0 == WidthOf(t[0])
    ensures var (d', out) := Text(d, Encoded(cs) + t); out == Units(cs) && Holds(d', t)
  {
    hide CheckIncomplete, Decoded, Units, Encoded;
    var s := Encoded(cs) + t;
    DecodeAfterEncode(cs, []);
    DecodedNone([], 0, 0);
    assert Encoded(cs) + [] == Encoded(cs);
    assert Units(cs) + [] == Units(cs);
    if t == [] {
      assert s == Encoded(cs);
    } else {
      assert s[..|s| - |t|] == Encoded(cs) && s[|s| - |t|..] == t;
    }
  }

  // Bytes that continue the first one.
  predicate Continued(s: seq<Byte>) {
    s != [] && forall k :: 1 <= k < WidthOf(s[0]) && k < |s| ==> s[k] / 64 == 2
  }

  lemma CharContinued(c: Scalar, rest: seq<Byte>)
    ensures Continued(EncodeScalar(c) + rest)
  {
    var e := EncodeScalar(c);
    ByteKinds(c, 0);
    forall k | 1 <= k < |e| ensures (e + rest)[k] / 64 == 2 { ByteKinds(c, k); }
  }

  lemma CutContinued(t: seq<Byte>, c: Scalar)
    requires Starts(t, c)
    ensures Continued(t) && |t| < WidthOf(t[0])
  {
    ByteKinds(c, 0);
    forall k | 1 <= k < |t| ensures t[k] / 64 == 2 {
      ByteKinds(c, k);
      assert t[k] == EncodeScalar(c)[k];
    }
  }

  // What the first byte of a non-empty run says about the run.
  lemma FirstChar(cs: seq<Scalar>, t: seq<Byte>, s: seq<Byte>)
    requires s == Encoded(cs) + t && s != [] && CutOff(t)
    ensures Continued(s)
    ensures cs == [] ==> |s| < WidthOf(s[0]) && s == t
    ensures cs != [] ==> |s| >= WidthOf(s[0])
    ensures cs != [] ==> s[..WidthOf(s[0])] == EncodeScalar(cs[0]) && s[WidthOf(s[0])..] == Encoded(cs[1..]) + t
  {
    if cs == [] {
      assert s == t;
      var c :| Starts(t, c);
      CutContinued(t, c);
    } else {
      var e, rest := EncodeScalar(cs[0]), Encoded(cs[1..]) + t;
      CharContinued(cs[0], rest);
      ByteKinds(cs[0], 0);
      hide EncodeScalar, WidthOf;
      Regroup(e, Encoded(cs[1..]), t);
      assert s == e + rest;
      assert (e + rest)[..|e|] == e && (e + rest)[|e|..] == rest;
    }
  }

  lemma ExtraFine(t0: seq<Byte>, buf: seq<Byte>, need: nat)
    requires t0 != [] && buf != [] && Continued(t0 + buf) && need > 0 && |t0| + need == WidthOf(t0[0])
    ensures CheckExtra(need, buf) == None
  {
    var s := t0 + buf;
    assert forall k :: 0 <= k < |buf| && k < need ==> buf[k] == s[|t0| + k];
    hide WidthOf;
  }

  lemma CopyCompletes(d: State, t0: seq<Byte>, buf: seq<Byte>)
    requires t0 != [] && Holds(d, t0) && d.need <= |buf|
    ensures Copy(d.held, |t0|, buf[..d.need])[..d.total] == (t0 + buf)[..d.total]
    ensures (t0 + buf)[d.total..] == buf[d.need..]
  {
    hide WidthOf;
    var a, b := Copy(d.held, |t0|, buf[..d.need])[..d.total], (t0 + buf)[..d.total];
    assert forall k :: 0 <= k < |t0| ==> a[k] == d.held[..|t0|][k] == b[k];
  }

  lemma FillStep(d: State, t0: seq<Byte>, buf: seq<Byte>, cs: seq<Scalar>, t: seq<Byte>)
    requires t0 != [] && Holds(d, t0) && buf != [] && CutOff(t)
    requires t0 + buf == Encoded(cs) + t
    ensures CheckExtra(d.need, buf) == None
    ensures d.need <= |buf| <==> cs != []
    ensures cs != [] ==> Copy(d.held, |t0|, buf[..d.need])[..d.total] == EncodeScalar(cs[0])
    ensures cs != [] ==> buf[d.need..] == Encoded(cs[1..]) + t
    ensures cs == [] ==> t == t0 + buf
  {
    hide EncodeScalar, Encoded, WidthOf, CheckExtra, Copy, CutOff, Continued;
    var s := t0 + buf;
    assert s[0] == t0[0];
    FirstChar(cs, t, s);
    ExtraFine(t0, buf, d.need);
    if cs != [] { CopyCompletes(d, t0, buf); }
  }

  lemma EncodedNone()
    ensures Encoded([]) == [] && Units([]) == []
  {}

  /** One chunk: what is held and what comes in is a run of characters; they come out, the cut one is held. */
  lemma WriteStep(d: State, t0: seq<Byte>, buf: seq<Byte>, cs: seq<Scalar>, t: seq<Byte>)
    requires Holds(d, t0) && CutOff(t) && t0 + buf == Encoded(cs) + t
    ensures var (d', out) := Write(d, buf); out == Units(cs) && Holds(d', t)
  {
    EncodedNone();
    if t0 == [] {
      assert t0 + buf == buf;
      if buf == [] { NothingIn(cs, t); } else { TextStep(d, cs, t); }
    } else if buf == [] {
      assert t0 + buf == t0;
      FirstChar(cs, t, t0);
    } else {
      FillStep(d, t0, buf, cs, t);
      if cs == [] {
        WaitStep(d, t0, buf);
      } else {
        FilledStep(d, t0, buf, cs, t);
      }
    }
  }

  lemma NothingIn(cs: seq<Scalar>, t: seq<Byte>)
    requires Encoded(cs) + t == []
    ensures cs == [] && t == []
  {}

  lemma WaitStep(d: State, t0: seq<Byte>, buf: seq<Byte>)
    requires t0 != [] && Holds(d, t0) && buf != [] && d.need > |buf| && CheckExtra(d.need, buf) == None
    ensures Write(d, buf).1 == [] && Holds(Write(d, buf).0, t0 + buf)
  {
    hide CheckExtra, WidthOf;
    var d' := Write(d, buf).0;
    assert d'.held[..|t0| + |buf|] == t0 + buf;
  }

  lemma FilledStep(d: State, t0: seq<Byte>, buf: seq<Byte>, cs: seq<Scalar>, t: seq<Byte>)
    requires t0 != [] && Holds(d, t0) && buf != [] && d.need <= |buf| && CheckExtra(d.need, buf) == None
    requires cs != [] && CutOff(t) && buf[d.need..] == Encoded(cs[1..]) + t
    requires Copy(d.held, |t0|, buf[..d.need])[..d.total] == EncodeScalar(cs[0])
    ensures var (d', out) := Write(d, buf); out == Units(cs) && Holds(d', t)
  {
    hide CheckExtra, Copy, Text, EncodeScalar, WidthOf, CutOff, Decoded;
    DecodeOne(cs[0]);
    var (d1, filled) := FillLast(d, buf);
    assert filled == Some(UnitsOf(cs[0]));
    var d2 := d1.(need := 0);
    if d.need < |buf| {
      TextStep(d2, cs[1..], t);
    } else {
      NothingIn(cs[1..], t);
      assert cs == [cs[0]];
    }
  }

  lemma DecodeOne(c: Scalar)
    ensures Decoded(EncodeScalar(c)) == UnitsOf(c)
  {
    DecodeAfterEncode([c], []);
    EncodedOne(c);
    assert EncodeScalar(c) + [] == EncodeScalar(c);
  }

  // ----- Whole streams -----

  function Concat<T>(chunks: seq<seq<T>>): seq<T> {
    if chunks == [] then [] else chunks[0] + Concat(chunks[1..])
  }

  /** Everything the decoder puts out for the chunks, the closing `end` included. */
  function DecodeChunks(d: State, chunks: seq<seq<Byte>>): seq<Unit>
    requires Sound(d)
    decreases |chunks|
  {
    if chunks == [] then End(d)
    else var (d', out) := Write(d, chunks[0]); out + DecodeChunks(d', chunks[1..])
  }

  // Any prefix of an encoding is whole characters and one cut off.
  lemma {:induction false} CutAnywhere(cs: seq<Scalar>, n: nat) returns (k: nat, t: seq<Byte>)
    requires n <= |Encoded(cs)|
    ensures k <= |cs| && CutOff(t) && Encoded(cs)[..n] == Encoded(cs[..k]) + t
  {
    if n == 0 {
      k, t := 0, [];
      assert Encoded(cs)[..n] == [] + [];
    } else {
      var e := EncodeScalar(cs[0]);
      if n < |e| {
        k, t := 0, e[..n];
        assert Starts(t, cs[0]);
        assert Encoded(cs)[..n] == [] + t;
      } else {
        k, t := CutAnywhere(cs[1..], n - |e|);
        assert Encoded(cs)[..n] == e + Encoded(cs[1..])[..n - |e|];
        assert cs[..k + 1][1..] == cs[1..][..k];
        assert e + (Encoded(cs[1..][..k]) + t) == (e + Encoded(cs[1..][..k])) + t;
        k := k + 1;
      }
    }
  }

  lemma {:induction false} EncodedSplit(a: seq<Scalar>, b: seq<Scalar>)
    ensures Encoded(a + b) == Encoded(a) + Encoded(b)
  {
    if a == [] {
      assert a + b == b;
    } else {
      EncodedSplit(a[1..], b);
      assert (a + b)[1..] == a[1..] + b;
      Regroup(EncodeScalar(a[0]), Encoded(a[1..]), Encoded(b));
    }
  }

  lemma {:induction false} UnitsSplit(a: seq<Scalar>, b: seq<Scalar>)
    ensures Units(a + b) == Units(a) + Units(b)
  {
    if a == [] {
      assert a + b == b;
    } else {
      UnitsSplit(a[1..], b);
      assert (a + b)[1..] == a[1..] + b;
      Regroup(UnitsOf(a[0]), Units(a[1..]), Units(b));
    }
  }

  lemma Cancel<T>(a: seq<T>, b: seq<T>, c: seq<T>)
    requires a + b == a + c
    ensures b == c
  {
    assert b == (a + b)[|a|..] && c == (a + c)[|a|..];
  }

  lemma StartsShort(t: seq<Byte>, m: nat)
    requires CutOff(t) && m <= |t|
    ensures CutOff(t[..m])
  {
    if m > 0 {
      var c :| Starts(t, c);
      assert t[..m] == EncodeScalar(c)[..m];
      assert Starts(t[..m], c);
    }
  }

  // The next chunk of what is left cuts the characters left, or the last one that is cut anyway.
  lemma NextChunk(t0: seq<Byte>, chunk: seq<Byte>, rest: seq<Byte>, cs: seq<Scalar>, end: seq<Byte>)
    returns (k: nat, t: seq<Byte>)
    requires t0 + (chunk + rest) == Encoded(cs) + end && CutOff(end)
    ensures k <= |cs| && CutOff(t)
    ensures t0 + chunk == Encoded(cs[..k]) + t && t + rest == Encoded(cs[k..]) + end
    ensures Units(cs) == Units(cs[..k]) + Units(cs[k..])
  {
    hide *;
    var n, m := |t0 + chunk|, |Encoded(cs)|;
    Regroup(t0, chunk, rest);
    assert t0 + chunk == (Encoded(cs) + end)[..n];
    if n <= m {
      assert (Encoded(cs) + end)[..n] == Encoded(cs)[..n];
      k, t := CutAnywhere(cs, n);
      assert cs == cs[..k] + cs[k..];
      EncodedSplit(cs[..k], cs[k..]);
      Regroup(Encoded(cs[..k]), t, rest);
      Regroup(Encoded(cs[..k]), Encoded(cs[k..]), end);
      Cancel(Encoded(cs[..k]), Encoded(cs[k..]) + end, t + rest);
    } else {
      k, t := |cs|, end[..n - m];
      StartsShort(end, n - m);
      assert cs[..k] == cs && cs[k..] == [];
      EncodedNone();
      assert (Encoded(cs) + end)[..n] == Encoded(cs) + t;
      Regroup(Encoded(cs), t, rest);
      Cancel(Encoded(cs), end, t + rest);
      assert [] + end == end;
      assert cs == cs[..k] + cs[k..];
    }
    UnitsSplit(cs[..k], cs[k..]);
  }

  /** What the end adds for a character that is cut off. */
  function Closing(t: seq<Byte>): seq<Unit> {
    if t == [] then [] else [REPLACEMENT]
  }

  lemma {:induction false} ChunksFrom(d: State, t0: seq<Byte>, chunks: seq<seq<Byte>>, cs: seq<Scalar>, end: seq<Byte>)
    requires Holds(d, t0) && t0 + Concat(chunks) == Encoded(cs) + end && CutOff(end)
    ensures DecodeChunks(d, chunks) == Units(cs) + Closing(end)
    decreases |chunks|
  {
    if chunks == [] {
      assert t0 + [] == t0;
      if t0 == [] { NothingIn(cs, end); } else { FirstChar(cs, end, t0); }
      EncodedNone();
      assert Units(cs) + Closing(end) == Closing(end);
    } else {
      hide Units, Encoded, CutOff, Write, Holds, Closing;
      var k, t := NextChunk(t0, chunks[0], Concat(chunks[1..]), cs, end);
      WriteStep(d, t0, chunks[0], cs[..k], t);
      HoldsSound(Write(d, chunks[0]).0, t);
      ChunksFrom(Write(d, chunks[0]).0, t, chunks[1..], cs[k..], end);
      Regroup(Units(cs[..k]), Units(cs[k..]), Closing(end));
    }
  }

  lemma HoldsSound(d: State, t: seq<Byte>)
    requires Holds(d, t)
    ensures Sound(d)
  {}

  /**
    * However well-formed bytes are cut into chunks, a fresh decoder's output is what decoding them
    * at once gives, and that is the string they encode.
    */
  lemma ChunkingDoesNotMatter(d: State, chunks: seq<seq<Byte>>, cs: seq<Scalar>)
    requires Sound(d) && d.need == 0 && Concat(chunks) == Encoded(cs)
    ensures DecodeChunks(d, chunks) == Decoded(Concat(chunks)) == Units(cs)
  {
    assert [] + Concat(chunks) == Concat(chunks) && Encoded(cs) + [] == Encoded(cs);
    ChunksFrom(d, [], chunks, cs, []);
    DecodeAfterEncode(cs, []);
    assert Units(cs) + [] == Units(cs);
  }

  /** If the last character is cut off, the output is the characters before it and one replacement. */
  lemma CutOffIsReplaced(d: State, chunks: seq<seq<Byte>>, cs: seq<Scalar>, c: Scalar, t: seq<Byte>)
    requires Sound(d) && d.need == 0 && Starts(t, c) && Concat(chunks) == Encoded(cs) + t
    ensures DecodeChunks(d, chunks) == Units(cs) + [REPLACEMENT]
  {
    hide EncodeScalar;
    assert [] + Concat(chunks) == Concat(chunks);
    ChunksFrom(d, [], chunks, cs, t);
  }

  // ----- Bytes that are not well formed -----

  /** The width a first byte announces, 0 for any other. */
  function Announced(b: Byte): nat {
    if 192 <= b < 224 then 2 else if 224 <= b < 240 then 3 else if 240 <= b < 248 then 4 else 0
  }

  /** The last `m` bytes are a first byte and bytes that continue it, fewer than it announces. */
  predicate CutAt(s: seq<Byte>, m: nat) {
    && 1 <= m <= |s| && m < Announced(s[|s| - m])
    && forall j :: |s| - m < j < |s| ==> 128 <= s[j] < 192
  }

  lemma CheckByteIs(b: Byte)
    ensures CheckByte(b) ==
            if b < 128 then 0 else if Announced(b) > 0 then Announced(b) else if b < 192 then -1 else -2
  {}

  /** For all bytes: what is held back at the end of a chunk is a character announced and not complete. */
  lemma {:induction false} IncompleteIff(s: seq<Byte>)
    ensures forall m: nat :: CutAt(s, m) ==> CheckIncomplete(s) == (Announced(s[|s| - m]), Announced(s[|s| - m]) - m)
    ensures CheckIncomplete(s).1 > 0 ==> exists m: nat :: CutAt(s, m)
  {
    var n := |s|;
    if n >= 1 { CheckByteIs(s[n - 1]); }
    if n >= 2 { CheckByteIs(s[n - 2]); }
    if n >= 3 { CheckByteIs(s[n - 3]); }
    hide CheckByte;
    var r := CheckIncomplete(s);
    forall m: nat | CutAt(s, m) ensures r == (Announced(s[n - m]), Announced(s[n - m]) - m) {
      assert m <= 3;
    }
    if r.1 > 0 { assert CutAt(s, r.0 - r.1); }
  }

  /** A waiting character that is not continued counts for one replacement, and what follows it is read anew. */
  lemma BrokenOff(d: State, buf: seq<Byte>, k: nat)
    requires Sound(d) && k < d.need && k < |buf|
    requires !(128 <= buf[k] < 192) && forall j :: 0 <= j < k ==> 128 <= buf[j] < 192
    ensures var (d', out) := Write(d.(need := 0), buf[k..]); Write(d, buf) == (d', [REPLACEMENT] + out)
  {
    hide Text;
    assert buf[k] / 64 != 2 && forall j :: 0 <= j < k ==> buf[j] / 64 == 2;
    assert CheckExtra(d.need, buf) == Some(k);
  }

  /** One that is continued to its end is decoded, well formed or not, and what follows it is read anew. */
  lemma Continues(d: State, t0: seq<Byte>, buf: seq<Byte>)
    requires t0 != [] && Holds(d, t0) && d.need <= |buf| && forall j :: 0 <= j < d.need ==> 128 <= buf[j] < 192
    ensures var d2 := State(0, d.total, Copy(d.held, |t0|, buf[..d.need]));
            var (d', out) := Write(d2, buf[d.need..]);
            Write(d, buf) == (d', Decoded((t0 + buf)[..d.total]) + out)
  {
    hide Text, Decoded, Copy, WidthOf;
    assert forall j :: 0 <= j < d.need ==> buf[j] / 64 == 2;
    assert CheckExtra(d.need, buf) == None;
    CopyCompletes(d, t0, buf);
    var all := Decoded((t0 + buf)[..d.total]);
    assert all + [] == all;
  }
}
