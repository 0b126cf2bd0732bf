/** TextEncoder and TextDecoder on UTF-16 text: the bytes of RFC 3629. */
module Utf8 {
  import opened Ordering
  import opened StableJson

  type Byte = n: nat | n < 256

  /** No lone surrogate. */
  predicate Paired(t: Text) {
    if t == [] then true
    else if StartsPair(t) then Paired(t[2..])
    else !IsHigh(t[0]) && !IsLow(t[0]) && Paired(t[1..])
  }

  /** The bytes of one code unit outside the surrogates. */
  function UnitBytes(u: CodeUnit): seq<Byte> {
    if u < 0x80 then [u]
    else if u < 0x800 then [0xC0 + u / 64, 0x80 + u % 64]
    else [0xE0 + u / 4096, 0x80 + u / 64 % 64, 0x80 + u % 64]
  }

  function PairBytes(hi: CodeUnit, lo: CodeUnit): seq<Byte>
    requires IsHigh(hi) && IsLow(lo)
  {
    var c := 0x1_0000 + (hi - 0xD800) * 1024 + (lo - 0xDC00);
    [0xF0 + c / 262144, 0x80 + c / 4096 % 64, 0x80 + c / 64 % 64, 0x80 + c % 64]
  }

  /** A lone surrogate is written as U+FFFD. */
  function Encode(t: Text): seq<Byte>
    decreases |t|
  {
    if t == [] then []
    else if StartsPair(t) then PairBytes(t[0], t[1]) + Encode(t[2..])
    else (if IsHigh(t[0]) || IsLow(t[0]) then UnitBytes(0xFFFD) else UnitBytes(t[0])) + Encode(t[1..])
  }

  predicate IsTail(b: Byte) { 0x80 <= b < 0xC0 }

  /** The payload of a trailing byte. */
  function Tail(b: Byte): nat
    requires IsTail(b)
  {
    b as int - 0x80
  }

  /** One code point at the head: its code units and how many bytes it took. */
  function DecodeOne(bs: seq<Byte>): Option<(Text, nat)>
    requires bs != []
  {
    var lead := bs[0] as int;
    if lead < 0x80 then Some(([lead], 1))
    else if 0xC2 <= lead < 0xE0 && |bs| >= 2 && IsTail(bs[1]) then Some(([(lead - 0xC0) * 64 + Tail(bs[1])], 2))
    else if 0xE0 <= lead < 0xF0 && |bs| >= 3 && IsTail(bs[1]) && IsTail(bs[2]) then
      var c := (lead - 0xE0) * 4096 + Tail(bs[1]) * 64 + Tail(bs[2]);
      if c < 0x800 || 0xD800 <= c < 0xE000 then None else Some(([c], 3))
    else if 0xF0 <= lead < 0xF5 && |bs| >= 4 && IsTail(bs[1]) && IsTail(bs[2]) && IsTail(bs[3]) then
      var c := (lead - 0xF0) * 262144 + Tail(bs[1]) * 4096 + Tail(bs[2]) * 64 + Tail(bs[3]);
      if c < 0x1_0000 || c > 0x10_FFFF then None
      else Some(([0xD800 + (c - 0x1_0000) / 1024, 0xDC00 + (c - 0x1_0000) % 1024], 4))
    else None
  }

  function Decode(bs: seq<Byte>): Option<Text>
    decreases |bs|
  {
    if bs == [] then Some([])
    else
      match DecodeOne(bs)
      case None => None
      case Some(one) =>
        assert one.1 <= |bs|;
        match Decode(bs[one.1..]) case None => None case Some(rest) => Some(one.0 + rest)
  }

  lemma UnitRoundTrip(u: CodeUnit, rest: seq<Byte>)
    requires !IsHigh(u) && !IsLow(u)
    ensures DecodeOne(UnitBytes(u) + rest) == Some(([u], |UnitBytes(u)|))
    ensures (UnitBytes(u) + rest)[|UnitBytes(u)|..] == rest
  {
    var bs := UnitBytes(u) + rest;
    if u < 0x80 {
    } else if u < 0x800 {
      assert bs[0] == 0xC0 + u / 64 && bs[1] == 0x80 + u % 64;
    } else {
      assert bs[0] == 0xE0 + u / 4096 && bs[1] == 0x80 + u / 64 % 64 && bs[2] == 0x80 + u % 64;
      assert u / 64 == u / 4096 * 64 + u / 64 % 64;
    }
  }

  lemma PairDigits(c: nat)
    ensures c == c / 262144 * 262144 + c / 4096 % 64 * 4096 + c / 64 % 64 * 64 + c % 64
  {
    assert c / 4096 == c / 262144 * 64 + c / 4096 % 64;
    assert c / 64 == c / 4096 * 64 + c / 64 % 64;
  }

  lemma PairRoundTrip(hi: CodeUnit, lo: CodeUnit, rest: seq<Byte>)
    requires IsHigh(hi) && IsLow(lo)
    ensures DecodeOne(PairBytes(hi, lo) + rest) == Some(([hi, lo], 4))
    ensures (PairBytes(hi, lo) + rest)[4..] == rest
  {
    var c := 0x1_0000 + (hi - 0xD800) * 1024 + (lo - 0xDC00);
    var bs := PairBytes(hi, lo) + rest;
    assert bs[0] == 0xF0 + c / 262144 && bs[1] == 0x80 + c / 4096 % 64;
    assert bs[2] == 0x80 + c / 64 % 64 && bs[3] == 0x80 + c % 64;
    PairDigits(c);
    assert (c - 0x1_0000) / 1024 == hi - 0xD800 && (c - 0x1_0000) % 1024 == lo - 0xDC00;
  }

  /** Decoding what was encoded gives the text back, for every text without a lone surrogate. */
  lemma {:induction false} RoundTrip(t: Text)
    requires Paired(t)
    ensures Decode(Encode(t)) == Some(t)
    decreases |t|
  {
    if t != [] {
      if StartsPair(t) {
        PairRoundTrip(t[0], t[1], Encode(t[2..]));
        RoundTrip(t[2..]);
        assert t == [t[0], t[1]] + t[2..];
      } else {
        UnitRoundTrip(t[0], Encode(t[1..]));
        RoundTrip(t[1..]);
        assert t == [t[0]] + t[1..];
      }
    }
  }

  /*** JSON text never holds a lone surrogate ***/

  lemma {:induction false} PairedAppend(a: Text, b: Text)
    requires Paired(a) && Paired(b)
    ensures Paired(a + b)
    decreases |a|
  {
    if a == [] {
      assert a + b == b;
    } else if StartsPair(a) {
      PairedAppend(a[2..], b);
      assert (a + b)[2..] == a[2..] + b && (a + b)[0] == a[0] && (a + b)[1] == a[1];
    } else {
      PairedAppend(a[1..], b);
      assert (a + b)[1..] == a[1..] + b && (a + b)[0] == a[0];
    }
  }

  lemma {:induction false} PlainUnits(t: Text)
    requires forall i :: 0 <= i < |t| ==> !IsHigh(t[i]) && !IsLow(t[i])
    ensures Paired(t)
    decreases |t|
  {
    if t != [] { PlainUnits(t[1..]); }
  }

  lemma {:induction false} EscapePaired(s: Text)
    ensures Paired(Escape(s))
    decreases |s|
  {
    if s != [] {
      if StartsPair(s) {
        EscapePaired(s[2..]);
        assert Paired([s[0], s[1]]) by { assert [s[0], s[1]][2..] == []; }
        PairedAppend([s[0], s[1]], Escape(s[2..]));
        assert s[..2] == [s[0], s[1]];
      } else {
        EscapePaired(s[1..]);
        PlainUnits(EscapeUnit(s[0]));
        PairedAppend(EscapeUnit(s[0]), Escape(s[1..]));
      }
    }
  }

  /** A quoted string has no lone surrogate, whatever the string. */
  lemma QuotePaired(s: Text)
    ensures Paired(Quote(s))
  {
    EscapePaired(s);
    PlainUnits([QUOTE]);
    PairedAppend([QUOTE], Escape(s));
    PairedAppend([QUOTE] + Escape(s), [QUOTE]);
  }
}
