/**
  * Unsigned 32-bit words as naturals, with the bit operators the trie uses written out, and the
  * parallel population count shown to count bits.
  */
module Bits {

  type Word = w: nat | w < 0x1_0000_0000

  // ----- The operators -----

  function And(a: nat, b: nat): (r: nat)
    ensures r <= a && r <= b
  {
    if a == 0 || b == 0 then 0
    else (if a % 2 == 1 && b % 2 == 1 then 1 else 0) + 2 * And(a / 2, b / 2)
  }

  function Or(a: nat, b: nat): nat
  {
    if a == 0 then b else if b == 0 then a
    else (if a % 2 == 1 || b % 2 == 1 then 1 else 0) + 2 * Or(a / 2, b / 2)
  }

  function Xor(a: nat, b: nat): nat
  {
    if a == 0 then b else if b == 0 then a
    else (if a % 2 == b % 2 then 0 else 1) + 2 * Xor(a / 2, b / 2)
  }

  /** `1 << i` */
  function Bit(i: nat): (r: nat)
    ensures r >= 1
  {
    if i == 0 then 1 else 2 * Bit(i - 1)
  }

  /** The parallel count: pairs, nibbles, bytes, then the four bytes added up. */
  function PopCount(w: Word): nat
  {
    var t1 := w - And(w / 2, 0x5555_5555);
    var t2 := And(t1, 0x3333_3333) + And(t1 / 4, 0x3333_3333);
    var t3 := And(Plus16th(t2), 0x0F0F_0F0F);
    SumBytes(t3)
  }

  function SumBytes(t: nat): nat
  {
    var u := t + t / 0x100;
    And(u + u / 0x1_0000, 127)
  }

  function Plus16th(t: nat): nat { t + t / 16 }

  // ----- What they mean, bit by bit -----

  /** Bit `i` of `b`. */
  predicate At(b: nat, i: nat)
  {
    if i == 0 then b % 2 == 1 else At(b / 2, i - 1)
  }

  /** How many of the bits below `i` are set. */
  function Below(b: nat, i: nat): (r: nat)
    ensures r <= i
  {
    if i == 0 then 0 else b % 2 + Below(b / 2, i - 1)
  }

  // A number without its lowest bit.
  lemma HalfOf(q: nat, r: nat)
    requires r < 2
    ensures (2 * q + r) / 2 == q && (2 * q + r) % 2 == r
  {}

  lemma AndHalf(q: nat, r: nat, m: nat, s: nat)
    requires r < 2 && s < 2
    ensures And(2 * q + r, 2 * m + s) == r * s + 2 * And(q, m)
  {
    HalfOf(q, r);
    HalfOf(m, s);
  }

  lemma OrHalf(q: nat, r: nat, m: nat, s: nat)
    requires r < 2 && s < 2
    ensures Or(2 * q + r, 2 * m + s) == (if r == 1 || s == 1 then 1 else 0) + 2 * Or(q, m)
    ensures Xor(2 * q + r, 2 * m + s) == (if r == s then 0 else 1) + 2 * Xor(q, m)
  {
    HalfOf(q, r);
    HalfOf(m, s);
    OrZero(q);
  }

  lemma AtHalf(q: nat, r: nat, j: nat)
    requires r < 2
    ensures At(2 * q + r, j) == if j == 0 then r == 1 else At(q, j - 1)
  {
    HalfOf(q, r);
  }

  // The bit at `i`: one more than twice nothing, or twice the bit below.
  lemma BitHalf(i: nat) returns (m: nat, s: nat)
    ensures s < 2 && Bit(i) == 2 * m + s && if i == 0 then m == 0 && s == 1 else m == Bit(i - 1) && s == 0
  {
    m, s := if i == 0 then 0 else Bit(i - 1), if i == 0 then 1 else 0;
  }

  lemma {:induction false} TestBit(b: nat, i: nat)
    ensures And(b, Bit(i)) != 0 <==> At(b, i)
  {
    hide And, Bit, At;
    var q, r := b / 2, b % 2;
    assert b == 2 * q + r;
    var m, s := BitHalf(i);
    AndHalf(q, r, m, s);
    AtHalf(q, r, i);
    if i == 0 { AndZero(q); } else { TestBit(q, i - 1); }
  }

  lemma {:induction false} OrBit(b: nat, i: nat, j: nat)
    ensures At(Or(b, Bit(i)), j) <==> At(b, j) || i == j
  {
    hide Or, Xor, Bit, At;
    var q, r := b / 2, b % 2;
    assert b == 2 * q + r;
    var m, s := BitHalf(i);
    OrHalf(q, r, m, s);
    AtHalf(q, r, j);
    AtHalf(Or(q, m), if r == 1 || s == 1 then 1 else 0, j);
    if i == 0 { OrZero(q); } else if j > 0 { OrBit(q, i - 1, j - 1); }
  }

  lemma {:induction false} XorBit(b: nat, i: nat, j: nat)
    ensures At(Xor(b, Bit(i)), j) <==> At(b, j) != (i == j)
  {
    hide Or, Xor, Bit, At;
    var q, r := b / 2, b % 2;
    assert b == 2 * q + r;
    var m, s := BitHalf(i);
    OrHalf(q, r, m, s);
    AtHalf(q, r, j);
    AtHalf(Xor(q, m), if r == s then 0 else 1, j);
    if i == 0 { OrZero(q); } else if j > 0 { XorBit(q, i - 1, j - 1); }
  }

  lemma {:induction false} ZeroAt(j: nat)
    ensures !At(0, j)
  {
    if j > 0 { ZeroAt(j - 1); }
  }

  // ----- The population count -----

  // The word whose `k` fields of base `w` all hold `v`: the masks of the count.
  function Repeat(v: nat, w: nat, k: nat): nat
  {
    if k == 0 then 0 else v + w * Repeat(v, w, k - 1)
  }

  lemma Masks()
    ensures 0x5555_5555 == Repeat(1, 4, 16)
    ensures 0x3333_3333 == Repeat(3, 16, 8)
    ensures 0x0F0F_0F0F == Repeat(15, 256, 4)
  {
    assert Repeat(1, 4, 4) == 0x55;
    assert Repeat(1, 4, 8) == 0x5555;
    assert Repeat(1, 4, 12) == 0x55_5555;
    assert Repeat(3, 16, 4) == 0x3333;
  }

  // `And` with a mask, two bits at a time, then a field at a time.
  lemma And4(q: nat, r: nat, m: nat)
    requires r < 4
    ensures And(4 * q + r, 4 * m) == 4 * And(q, m)
    ensures And(4 * q + r, 4 * m + 1) == r % 2 + 4 * And(q, m)
    ensures And(4 * q + r, 4 * m + 3) == r + 4 * And(q, m)
  {
    hide And;
    AndHalf(q, r / 2, m, 0);
    AndHalf(q, r / 2, m, 1);
    AndHalf(2 * q + r / 2, r % 2, 2 * m, 0);
    AndHalf(2 * q + r / 2, r % 2, 2 * m, 1);
    AndHalf(2 * q + r / 2, r % 2, 2 * m + 1, 1);
  }

  lemma And16(q: nat, b: nat, a: nat, m: nat)
    requires a < 4 && b < 4
    ensures And(16 * q + 4 * b + a, 16 * m) == 16 * And(q, m)
    ensures And(16 * q + 4 * b + a, 16 * m + 3) == a + 16 * And(q, m)
    ensures And(16 * q + 4 * b + a, 16 * m + 15) == 4 * b + a + 16 * And(q, m)
  {
    hide And;
    And4(q, b, m);
    And4(4 * q + b, a, 4 * m);
    And4(4 * q + b, a, 4 * m + 3);
  }

  lemma And256(q: nat, b: nat, a: nat, m: nat)
    requires a < 16 && b < 16
    ensures And(256 * q + 16 * b + a, 256 * m + 15) == a + 256 * And(q, m)
  {
    hide And;
    And16(q, b / 4, b % 4, m);
    And16(16 * q + b, a / 4, a % 4, 16 * m);
  }

  lemma And127(q: nat, c: nat, b: nat, a: nat)
    requires c < 2 && b < 4 && a < 16
    ensures And(128 * q + 64 * c + 16 * b + a, 127) == 64 * c + 16 * b + a
  {
    hide And;
    And16(8 * q + 4 * c + b, a / 4, a % 4, 7);
    And4(2 * q + c, b, 1);
    AndHalf(q, c, 0, 1);
    AndZero(q);
  }

  lemma AndZero(x: nat)
    ensures And(x, 0) == 0
  {}

  // Bits set among the low two, four and eight.
  function Ones2(x: nat): (r: nat)
    ensures r <= 2
  {
    x % 2 + x / 2 % 2
  }

  function Ones4(x: nat): (r: nat)
    ensures r <= 4
  {
    Ones2(x) + Ones2(x / 4)
  }

  function Ones8(x: nat): (r: nat)
    ensures r <= 8
  {
    Ones4(x) + Ones4(x / 16)
  }

  // The count of each field of `x`, kept in that field.
  function Pairs(x: nat, k: nat): nat
  {
    if k == 0 then 0 else Ones2(x) + 4 * Pairs(x / 4, k - 1)
  }

  function Nibbles(x: nat, k: nat): nat
  {
    if k == 0 then 0 else Ones4(x) + 16 * Nibbles(x / 16, k - 1)
  }

  function Bytes(x: nat, k: nat): nat
  {
    if k == 0 then 0 else Ones8(x) + 256 * Bytes(x / 256, k - 1)
  }

  lemma Halves(q: nat, r: nat)
    requires r < 4
    ensures (4 * q + r) / 2 == 4 * (q / 2) + (2 * (q % 2) + r / 2)
    ensures r == Ones2(4 * q + r) + r / 2
  {
    var half, low := r / 2, r % 2;
    assert r == 2 * half + low && half < 2;
    HalfOf(2 * q + half, low);
    HalfOf(q, half);
  }

  lemma PairsStep(x: nat, q: nat, r: nat, m: nat)
    requires x == 4 * q + r && r < 4
    ensures And(x / 2, 4 * m + 1) == r / 2 + 4 * And(q / 2, m)
    ensures r == Ones2(x) + r / 2
  {
    hide And, Ones2;
    Halves(q, r);
    And4(q / 2, 2 * (q % 2) + r / 2, m);
  }

  lemma {:induction false} PairsStage(x: nat, k: nat)
    requires x < Bit(2 * k)
    ensures x == Pairs(x, k) + And(x / 2, Repeat(1, 4, k))
  {
    hide And, Ones2;
    if k == 0 {
      AndZero(0);
    } else {
      assert Bit(2 * k) == 4 * Bit(2 * (k - 1));
      PairsStage(x / 4, k - 1);
      PairsStep(x, x / 4, x % 4, Repeat(1, 4, k - 1));
    }
  }

  lemma NibblesStep(t: nat, p: nat, b: nat, a: nat, m: nat)
    requires t == 16 * p + 4 * b + a && a <= 2 && b <= 2
    ensures And(t, 16 * m + 3) + And(t / 4, 16 * m + 3) == a + b + 16 * (And(p, m) + And(p / 4, m))
  {
    hide And;
    And16(p, b, a, m);
    And16(p / 4, p % 4, b, m);
  }

  lemma {:induction false} PairsTwice(x: nat, k: nat)
    requires k > 0
    ensures Pairs(x, 2 * k) == 16 * Pairs(x / 16, 2 * (k - 1)) + 4 * Ones2(x / 4) + Ones2(x)
  {
    hide Ones2;
    assert x / 4 / 4 == x / 16;
    assert Pairs(x / 4, 2 * k - 1) == Ones2(x / 4) + 4 * Pairs(x / 16, 2 * k - 2);
  }

  lemma NibblesNext(x: nat, k: nat)
    ensures And(Pairs(x, 0), Repeat(3, 16, 0)) + And(Pairs(x, 0) / 4, Repeat(3, 16, 0)) == Nibbles(x, 0)
    ensures k > 0 ==> Nibbles(x, k) == Ones2(x) + Ones2(x / 4) + 16 * Nibbles(x / 16, k - 1)
    ensures k > 0 ==> Repeat(3, 16, k) == 16 * Repeat(3, 16, k - 1) + 3
  {}

  lemma {:induction false} NibblesStage(x: nat, k: nat)
    ensures And(Pairs(x, 2 * k), Repeat(3, 16, k)) + And(Pairs(x, 2 * k) / 4, Repeat(3, 16, k)) == Nibbles(x, k)
  {
    hide *;
    NibblesNext(x, k);
    if k > 0 {
      PairsTwice(x, k);
      NibblesStep(Pairs(x, 2 * k), Pairs(x / 16, 2 * (k - 1)), Ones2(x / 4), Ones2(x), Repeat(3, 16, k - 1));
      NibblesStage(x / 16, k - 1);
    }
  }

  lemma BytesStep(n: nat, p: nat, b: nat, a: nat, m: nat)
    requires n == 256 * p + 16 * b + a && a <= 4 && b <= 4 && p % 16 <= 4
    ensures And(Plus16th(n), 256 * m + 15) == a + b + 256 * And(Plus16th(p), m)
  {
    hide And;
    And256(p + p / 16, b + p % 16, a + b, m);
  }

  lemma {:induction false} NibblesTwice(x: nat, k: nat)
    requires k > 0
    ensures Nibbles(x, 2 * k) == 256 * Nibbles(x / 256, 2 * (k - 1)) + 16 * Ones4(x / 16) + Ones4(x)
  {
    hide Ones4;
    assert x / 16 / 16 == x / 256;
    assert Nibbles(x / 16, 2 * k - 1) == Ones4(x / 16) + 16 * Nibbles(x / 256, 2 * k - 2);
  }

  lemma NibblesLow(x: nat, k: nat)
    ensures Nibbles(x, k) % 16 <= 4
  {
    hide Ones4;
  }

  lemma BytesNext(x: nat, k: nat)
    ensures And(Plus16th(Nibbles(x, 0)), Repeat(15, 256, 0)) == Bytes(x, 0)
    ensures k > 0 ==> Bytes(x, k) == Ones4(x) + Ones4(x / 16) + 256 * Bytes(x / 256, k - 1)
    ensures k > 0 ==> Repeat(15, 256, k) == 256 * Repeat(15, 256, k - 1) + 15
  {}

  lemma {:induction false} BytesStage(x: nat, k: nat)
    ensures And(Plus16th(Nibbles(x, 2 * k)), Repeat(15, 256, k)) == Bytes(x, k)
  {
    hide *;
    BytesNext(x, k);
    if k > 0 {
      NibblesTwice(x, k);
      NibblesLow(x / 256, 2 * (k - 1));
      BytesStep(Nibbles(x, 2 * k), Nibbles(x / 256, 2 * (k - 1)), Ones4(x / 16), Ones4(x), Repeat(15, 256, k - 1));
      BytesStage(x / 256, k - 1);
    }
  }

  lemma AddBytes(t: nat, a: nat, b: nat, c: nat, d: nat)
    requires a <= 8 && b <= 8 && c <= 8 && d <= 8
    requires t == a + 256 * (b + 256 * (c + 256 * d))
    ensures SumBytes(t) == a + b + c + d
  {
    hide And;
    var u := t + t / 0x100;
    assert t / 0x100 == b + 256 * (c + 256 * d);
    assert u / 0x1_0000 == c + d + 256 * d;
    var s := a + b + c + d;
    And127(2 * (b + c + d) + 512 * (c + d) + 131072 * d, 0, s / 16, s % 16);
  }

  lemma {:induction false} BelowSplit(x: nat, i: nat)
    ensures Below(x, i + 2) == Ones2(x) + Below(x / 4, i)
  {
    assert x / 2 / 2 == x / 4;
    assert Below(x / 2, i + 1) == x / 2 % 2 + Below(x / 4, i);
  }

  lemma BelowByte(x: nat, i: nat)
    ensures Below(x, i + 8) == Ones8(x) + Below(x / 256, i)
  {
    hide Below, Ones2;
    BelowSplit(x, i + 6);
    BelowSplit(x / 4, i + 4);
    BelowSplit(x / 16, i + 2);
    BelowSplit(x / 64, i);
  }

  lemma BelowNone(b: nat)
    ensures Below(b, 0) == 0
  {}

  lemma FourBytes(w: nat)
    ensures Below(w, 32) == Ones8(w) + Ones8(w / 256) + Ones8(w / 256 / 256) + Ones8(w / 256 / 256 / 256)
  {
    hide Ones8, Below;
    BelowByte(w, 24);
    BelowByte(w / 256, 16);
    BelowByte(w / 256 / 256, 8);
    BelowByte(w / 256 / 256 / 256, 0);
    BelowNone(w / 256 / 256 / 256 / 256);
  }

  lemma {:induction false} BytesOf(w: nat)
    ensures Bytes(w, 4)
         == Ones8(w) + 256 * (Ones8(w / 256) + 256 * (Ones8(w / 256 / 256) + 256 * Ones8(w / 256 / 256 / 256)))
  {
    hide Ones8;
    assert Bytes(w / 256 / 256 / 256, 1) == Ones8(w / 256 / 256 / 256);
    assert Bytes(w / 256 / 256, 2) == Ones8(w / 256 / 256) + 256 * Bytes(w / 256 / 256 / 256, 1);
    assert Bytes(w / 256, 3) == Ones8(w / 256) + 256 * Bytes(w / 256 / 256, 2);
  }

  lemma WordBit()
    ensures Bit(32) == 0x1_0000_0000
  {
    assert Bit(8) == 0x100;
    assert Bit(16) == 0x1_0000;
    assert Bit(24) == 0x100_0000;
  }

  lemma Stages(w: Word)
    ensures PopCount(w) == SumBytes(Bytes(w, 4))
  {
    hide And, Bytes, Nibbles, Pairs, Repeat, Bit, Plus16th, SumBytes;
    WordBit();
    Masks();
    PairsStage(w, 16);
    NibblesStage(w, 8);
    BytesStage(w, 4);
  }

  /** The parallel count is the number of set bits. */
  lemma PopCountCounts(w: Word)
    ensures PopCount(w) == Below(w, 32)
  {
    hide *;
    Stages(w);
    BytesOf(w);
    FourBytes(w);
    AddBytes(Bytes(w, 4), Ones8(w), Ones8(w / 256), Ones8(w / 256 / 256), Ones8(w / 256 / 256 / 256));
  }

  // ----- Ranks: where a slot's child sits in the dense array -----

  /** The array index of slot `i`, as the source computes it. */
  function Rank(b: Word, i: nat): nat
  {
    PopCount(And(b, Bit(i) - 1))
  }

  lemma BelowHalf(q: nat, r: nat, n: nat)
    requires r < 2
    ensures Below(2 * q + r, n + 1) == r + Below(q, n)
  {
    assert (2 * q + r) / 2 == q;
  }

  lemma MaskHalf(q: nat, r: nat, i: nat, n: nat)
    requires r < 2
    ensures Below(And(2 * q + r, Bit(i + 1) - 1), n + 1) == r + Below(And(q, Bit(i) - 1), n)
  {
    hide And, Below, Bit;
    BitDouble(i + 1);
    var m := Bit(i) - 1;
    AndHalf(q, r, m, 1);
    assert Bit(i + 1) - 1 == 2 * m + 1;
    BelowHalf(And(q, m), r, n);
  }

  lemma MaskNone(b: nat, n: nat)
    ensures Below(And(b, Bit(0) - 1), n) == Below(b, 0)
  {
    AndZero(b);
    BelowZero(n);
  }

  lemma {:induction false} BelowMask(b: nat, i: nat, n: nat)
    requires i <= n
    ensures Below(And(b, Bit(i) - 1), n) == Below(b, i)
  {
    hide And, Below, Bit;
    if i == 0 {
      MaskNone(b, n);
    } else {
      var q, r := b / 2, b % 2;
      assert b == 2 * q + r;
      MaskHalf(q, r, i - 1, n - 1);
      BelowMask(q, i - 1, n - 1);
      BelowHalf(q, r, i - 1);
    }
  }

  lemma {:induction false} BelowZero(n: nat)
    ensures Below(0, n) == 0
  {
    if n > 0 { BelowZero(n - 1); }
  }

  /** The rank of a slot is the number of occupied slots below it. */
  lemma RankIsBelow(b: Word, i: nat)
    requires i <= 32
    ensures Rank(b, i) == Below(b, i)
  {
    hide And;
    PopCountCounts(And(b, Bit(i) - 1));
    BelowMask(b, i, 32);
  }

  lemma {:induction false} BelowNext(b: nat, i: nat)
    ensures Below(b, i + 1) == Below(b, i) + if At(b, i) then 1 else 0
  {
    if i > 0 { BelowNext(b / 2, i - 1); }
  }

  lemma {:induction false} BelowMonotone(b: nat, i: nat, j: nat)
    requires i <= j
    ensures Below(b, i) <= Below(b, j)
    ensures i < j && At(b, i) ==> Below(b, i) < Below(b, j)
  {
    if i < j {
      BelowNext(b, j - 1);
      BelowMonotone(b, i, j - 1);
    }
  }

  lemma {:induction false} BelowOrBit(b: nat, i: nat, j: nat)
    requires !At(b, i)
    ensures Below(Or(b, Bit(i)), j) == Below(b, j) + if i < j then 1 else 0
  {
    hide Or, Bit, At, Below;
    BelowNone(b);
    BelowNone(Or(b, Bit(i)));
    if j > 0 {
      BelowOrBit(b, i, j - 1);
      BelowNext(b, j - 1);
      BelowNext(Or(b, Bit(i)), j - 1);
      OrBit(b, i, j - 1);
    }
  }

  lemma {:induction false} BelowXorBit(b: nat, i: nat, j: nat)
    requires At(b, i)
    ensures Below(Xor(b, Bit(i)), j) == Below(b, j) - if i < j then 1 else 0
  {
    hide Xor, Bit, At, Below;
    BelowNone(b);
    BelowNone(Xor(b, Bit(i)));
    if j > 0 {
      BelowXorBit(b, i, j - 1);
      BelowNext(b, j - 1);
      BelowNext(Xor(b, Bit(i)), j - 1);
      XorBit(b, i, j - 1);
    }
  }

  lemma {:induction false} OrWord(b: nat, i: nat, n: nat)
    requires b < Bit(n) && i < n
    ensures Or(b, Bit(i)) < Bit(n) && Xor(b, Bit(i)) < Bit(n)
  {
    hide Or, Xor, Bit;
    BitDouble(n);
    if i > 0 {
      OrWord(b / 2, i - 1, n - 1);
      BitDouble(i);
      HalfOr(b, Bit(i - 1));
    } else {
      HalfOne(b);
    }
  }

  lemma BitDouble(n: nat)
    requires n > 0
    ensures Bit(n) == 2 * Bit(n - 1)
  {}

  lemma {:induction false} HalfOr(b: nat, m: nat)
    ensures Or(b, 2 * m) <= 2 * Or(b / 2, m) + 1 && Xor(b, 2 * m) <= 2 * Xor(b / 2, m) + 1
  {}

  lemma {:induction false} HalfOne(b: nat)
    ensures Or(b, Bit(0)) <= 2 * (b / 2) + 1 && Xor(b, Bit(0)) <= 2 * (b / 2) + 1
  {
    OrZero(b / 2);
  }

  lemma {:induction false} OrZero(b: nat)
    ensures Or(b, 0) == b && Xor(b, 0) == b
  {
    if b > 0 { OrZero(b / 2); }
  }

  lemma {:induction false} BitLess(i: nat, n: nat)
    requires i < n
    ensures Bit(i) < Bit(n)
  {
    if i + 1 < n { BitLess(i, n - 1); }
  }

  /** `1 << i`, `b | (1 << i)` and `b ^ (1 << i)` on 32-bit words. */
  function BitWord(i: nat): Word
    requires i < 32
  {
    BitLess(i, 32);
    WordBit();
    Bit(i)
  }

  function OrBitWord(b: Word, i: nat): Word
    requires i < 32
  {
    WordBit();
    OrWord(b, i, 32);
    Or(b, Bit(i))
  }

  function XorBitWord(b: Word, i: nat): Word
    requires i < 32
  {
    WordBit();
    OrWord(b, i, 32);
    Xor(b, Bit(i))
  }
}
