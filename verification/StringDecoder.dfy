/**
  * The incremental UTF-8 string decoder: bytes come in chunks cut anywhere, and a character cut in
  * two waits in a four-byte buffer for the rest of it.
  */
module StringDecoder {
  import opened Wrappers
  import opened Utf8

  /** The decoder's fields as a value: the bytes still missing, the width of the cut character, its bytes. */
  datatype State = State(need: nat, total: nat, held: seq<Byte>)

  predicate Sound(d: State) {
    |d.held| == 4 && (d.need > 0 ==> d.need < d.total <= 4)
  }

  // ----- What each routine computes -----

  /** 0 for an ASCII byte, 2 to 4 for a first byte, -1 for a continuation byte, -2 for none of these. */
  function CheckByte(b: Byte): int {
    if b <= 127 then 0
    else if b / 32 == 6 then 2
    else if b / 16 == 14 then 3
    else if b / 8 == 30 then 4
    else if b / 64 == 2 then -1
    else -2
  }

  /** The width of the character cut off at the end of `s`, and how many of its bytes are missing. */
  function CheckIncomplete(s: seq<Byte>): (r: (nat, nat))
    ensures r.1 > 0 ==> r.1 < r.0 <= 4 && r.0 - r.1 <= |s|
  {
    if |s| == 0 then (0, 0)
    else
      var i := CheckByte(s[|s| - 1]);
      if i >= 0 then (i, if i > 0 then i - 1 else 0)
      else if |s| == 1 || i == -2 then (0, 0)
      else
        var j := CheckByte(s[|s| - 2]);
        if j >= 0 then (j, if j > 0 then j - 2 else 0)
        else if |s| == 2 || j == -2 then (0, 0)
        else
          var k := CheckByte(s[|s| - 3]);
          if k >= 0 && k != 2 then (k, if k > 0 then k - 3 else 0) else (0, 0)
  }

  /** `bs` copied over the buffer from position `at`. */
  function Copy(held: seq<Byte>, at: nat, bs: seq<Byte>): (r: seq<Byte>)
    requires at + |bs| <= |held|
    ensures |r| == |held|
  {
    held[..at] + bs + held[at + |bs|..]
  }

  function Text(d: State, s: seq<Byte>): (r: (State, seq<Unit>))
    requires Sound(d) && d.need == 0
    ensures Sound(r.0)
  {
    var (n, need) := CheckIncomplete(s);
    if need == 0 then (d, Decoded(s))
    else
      var cut := |s| - (n - need);
      (State(need, n, Copy(d.held, 0, s[cut..])), Decoded(s[..cut]))
  }

  /** How many bytes to skip if the waiting character turns out not to continue. */
  function CheckExtra(need: nat, buf: seq<Byte>): Option<nat>
    requires buf != []
  {
    if buf[0] / 64 != 2 then Some(0)
    else if need > 1 && |buf| > 1 && buf[1] / 64 != 2 then Some(1)
    else if need > 2 && |buf| > 2 && buf[2] / 64 != 2 then Some(2)
    else None
  }

  function FillLast(d: State, buf: seq<Byte>): (r: (State, Option<seq<Unit>>))
    requires Sound(d) && d.need > 0 && buf != []
    ensures Sound(r.0)
    ensures r.1.Some? ==> r.0.need <= |buf|
  {
    var p := d.total - d.need;
    match CheckExtra(d.need, buf)
    case Some(k) => (d.(need := k), Some([REPLACEMENT]))
    case None =>
      if d.need <= |buf| then
        var held := Copy(d.held, p, buf[..d.need]);
        (d.(held := held), Some(Decoded(held[..d.total])))
      else (State(d.need - |buf|, d.total, Copy(d.held, p, buf)), None)
  }

  function Write(d: State, buf: seq<Byte>): (r: (State, seq<Unit>))
    requires Sound(d)
    ensures Sound(r.0)
  {
    if buf == [] then (d, [])
    else if d.need == 0 then Text(d, buf)
    else
      var (d1, filled) := FillLast(d, buf);
      if filled.None? then (d1, [])
      else
        var d2 := d1.(need := 0);
        if d1.need < |buf| then
          var (d3, out) := Text(d2, buf[d1.need..]);
          (d3, filled.value + out)
        else (d2, filled.value)
  }

  function End(d: State): seq<Unit> {
    if d.need > 0 then [REPLACEMENT] else []
  }

  // ----- The decoder object -----

  class Decoder {
    var lastNeed: nat
    var lastTotal: nat
    const lastChar: array<Byte>

    ghost predicate Valid()
      reads this, lastChar
    {
      lastChar.Length == 4 && Sound(Value())
    }

    ghost function Value(): State
      reads this, lastChar
    {
      State(lastNeed, lastTotal, lastChar[..])
    }

    constructor ()
      ensures Valid() && fresh(lastChar) && Value().need == 0
    {
      lastNeed, lastTotal := 0, 0;
      lastChar := new Byte[4](_ => 0);
    }

    method CopyIn(at: nat, bs: seq<Byte>)
      requires lastChar.Length == 4 && at + |bs| <= 4
      modifies lastChar
      ensures lastChar[..] == Copy(old(lastChar[..]), at, bs)
    {
      for i := 0 to |bs|
        invariant forall k :: 0 <= k < 4 ==> lastChar[k] == if at <= k < at + i then bs[k - at] else old(lastChar[k])
      {
        lastChar[at + i] := bs[i];
      }
      assert forall k :: 0 <= k < 4 ==> lastChar[..][k] == Copy(old(lastChar[..]), at, bs)[k];
    }

    method WriteText(buf: seq<Byte>, from: nat) returns (out: seq<Unit>)
      requires Valid() && lastNeed == 0 && from <= |buf|
      modifies this, lastChar
      ensures Valid() && (Value(), out) == Text(old(Value()), buf[from..])
    {
      hide CheckIncomplete, Decoded;
      ghost var s := buf[from..];
      var (n, need) := CheckIncomplete(buf[from..]);
      if need == 0 {
        out := Decode(buf, from, |buf|);
        assert Slice(buf, from, |buf|) == s;
      } else {
        lastNeed, lastTotal := need, n;
        var cut := |buf| - (n - need);
        assert s[cut - from..] == buf[cut..] && s[..cut - from] == Slice(buf, from, cut);
        CopyIn(0, buf[cut..]);
        out := Decode(buf, from, cut);
      }
    }

    method Fill(buf: seq<Byte>) returns (out: Option<seq<Unit>>)
      requires Valid() && lastNeed > 0 && buf != []
      modifies this, lastChar
      ensures Valid() && (Value(), out) == FillLast(old(Value()), buf)
    {
      var p := lastTotal - lastNeed;
      var extra := CheckExtra(lastNeed, buf);
      if extra.Some? {
        lastNeed := extra.value;
        return Some([REPLACEMENT]);
      }
      if lastNeed <= |buf| {
        CopyIn(p, buf[..lastNeed]);
        var units := Decode(lastChar[..], 0, lastTotal);
        return Some(units);
      }
      CopyIn(p, buf);
      lastNeed := lastNeed - |buf|;
      return None;
    }

    /** The characters that `buf` completes. */
    method WriteChunk(buf: seq<Byte>) returns (out: seq<Unit>)
      requires Valid()
      modifies this, lastChar
      ensures Valid() && (Value(), out) == Write(old(Value()), buf)
    {
      if |buf| == 0 { return []; }
      var n := 0;
      out := [];
      if lastNeed > 0 {
        var filled := Fill(buf);
        if filled.None? { return []; }
        out := filled.value;
        n := lastNeed;
        lastNeed := 0;
      }
      if n < |buf| {
        assert n == 0 ==> buf[n..] == buf;
        var more := WriteText(buf, n);
        assert [] + more == more;
        out := out + more;
      }
    }

    /** The last chunk, with one replacement character for bytes that never got completed. */
    method Finish(buf: seq<Byte>) returns (out: seq<Unit>)
      requires Valid()
      modifies this, lastChar
      ensures Valid()
      ensures var (d, units) := Write(old(Value()), buf); Value() == d && out == units + End(d)
    {
      out := WriteChunk(buf);
      if lastNeed > 0 { out := out + [REPLACEMENT]; }
    }
  }
}
