/** Base64 for URLs (section 5 of RFC 4648) as the repository writes it by hand: btoa, two replacements and the padding
    stripped, and back with the padding restored by three different formulas. */
module Base64Url {
  import opened Ordering
  import opened StableJson
  import opened Utf8

  type Sextet = n: nat | n < 64

  const PAD: CodeUnit := 61
  const PLUS: CodeUnit := 43
  const SLASH: CodeUnit := 47
  const DASH: CodeUnit := 45
  const UNDERSCORE: CodeUnit := 95

  /*** The library functions: btoa and atob ***/

  function Sextets(bs: seq<Byte>): seq<Sextet> {
    if bs == [] then []
    else if |bs| == 1 then [bs[0] / 4, bs[0] % 4 * 16]
    else if |bs| == 2 then [bs[0] / 4, bs[0] % 4 * 16 + bs[1] / 16, bs[1] % 16 * 4]
    else [bs[0] / 4, bs[0] % 4 * 16 + bs[1] / 16, bs[1] % 16 * 4 + bs[2] / 64, bs[2] % 64] + Sextets(bs[3..])
  }

  function First(a: Sextet, b: Sextet): Byte { a as int * 4 + b as int / 16 }
  function Second(b: Sextet, c: Sextet): Byte { b as int % 16 * 16 + c as int / 4 }
  function Third(c: Sextet, d: Sextet): Byte { c as int % 4 * 64 + d as int }

  /** Spare bits of a short last group are dropped; one sextet alone is an error. */
  function Unsextets(ss: seq<Sextet>): Option<seq<Byte>> {
    if ss == [] then Some([])
    else if |ss| == 1 then None
    else if |ss| == 2 then Some([First(ss[0], ss[1])])
    else if |ss| == 3 then Some([First(ss[0], ss[1]), Second(ss[1], ss[2])])
    else
      match Unsextets(ss[4..])
      case None => None
      case Some(rest) => Some([First(ss[0], ss[1]), Second(ss[1], ss[2]), Third(ss[2], ss[3])] + rest)
  }

  function Char(s: Sextet): CodeUnit {
    if s < 26 then 65 + s else if s < 52 then 71 + s else if s < 62 then s - 4 else if s == 62 then PLUS else SLASH
  }

  function Value(u: CodeUnit): Option<Sextet> {
    if 65 <= u < 91 then Some(u - 65)
    else if 97 <= u < 123 then Some(u - 71)
    else if 48 <= u < 58 then Some(u + 4)
    else if u == PLUS then Some(62)
    else if u == SLASH then Some(63)
    else None
  }

  function Pads(n: nat): (t: Text)
    ensures |t| == n && forall i :: 0 <= i < n ==> t[i] == PAD
  {
    if n == 0 then [] else [PAD] + Pads(n - 1)
  }

  function Btoa(bs: seq<Byte>): Text {
    Map(Sextets(bs), Char) + Pads(if |bs| % 3 == 0 then 0 else 3 - |bs| % 3)
  }

  function Values(t: Text): Option<seq<Sextet>> {
    if t == [] then Some([])
    else
      match (Value(t[0]), Values(t[1..]))
      case (Some(v), Some(rest)) => Some([v] + rest)
      case _ => None
  }

  function DropPads(t: Text, most: nat): Text {
    if most > 0 && t != [] && t[|t| - 1] == PAD then DropPads(t[..|t| - 1], most - 1) else t
  }

  /** atob, for text without white space: up to two pads go when the length is a multiple of four. */
  function Atob(t: Text): Option<seq<Byte>> {
    match Values(if |t| % 4 == 0 then DropPads(t, 2) else t)
    case None => None
    case Some(ss) => Unsextets(ss)
  }

  /*** The repository's part ***/

  function ToUrlUnit(u: CodeUnit): CodeUnit { if u == PLUS then DASH else if u == SLASH then UNDERSCORE else u }
  function FromUrlUnit(u: CodeUnit): CodeUnit { if u == DASH then PLUS else if u == UNDERSCORE then SLASH else u }

  /** replace(/=+$/g, "") */
  function Strip(t: Text): Text {
    if t != [] && t[|t| - 1] == PAD then Strip(t[..|t| - 1]) else t
  }

  function ToUrl(bs: seq<Byte>): Text { Strip(Map(Btoa(bs), ToUrlUnit)) }

  /** "=".repeat((4 - (n % 4)) % 4) */
  function JournalPad(n: nat): nat { (4 - n % 4) % 4 }
  /** "===".slice((n + 3) % 4) */
  function PlanePad(n: nat): nat { 3 - (n + 3) % 4 }
  /** "=".repeat((4 - (n % 4 || 4)) % 4) */
  function MailboxPad(n: nat): nat { (4 - if n % 4 == 0 then 4 else n % 4) % 4 }

  function FromUrl(t: Text, pad: nat -> nat): Option<seq<Byte>> {
    Atob(Map(t, FromUrlUnit) + Pads(pad(|t|)))
  }

  /** The three formulas agree on every length, and complete it to a multiple of four. */
  lemma PadsAgree(n: nat)
    ensures JournalPad(n) == PlanePad(n) == MailboxPad(n) <= 3 && (n + JournalPad(n)) % 4 == 0
  {
    var q, r := n / 4, n % 4;
    assert n == 4 * q + r;
    assert (n + 3) % 4 == if r == 0 then 3 else r - 1;
  }

  /** Whole groups and what is left over. */
  lemma {:induction false} SextetsLength(bs: seq<Byte>) returns (q: nat, r: nat)
    ensures |bs| == 3 * q + r && r < 3 && |Sextets(bs)| == 4 * q + if r == 0 then 0 else r + 1
    decreases |bs|
  {
    if |bs| >= 3 {
      q, r := SextetsLength(bs[3..]);
      q := q + 1;
    } else {
      q, r := 0, |bs|;
    }
  }

  lemma PadOf(q: nat, k: nat)
    requires k < 4
    ensures JournalPad(4 * q + k) == if k == 0 then 0 else 4 - k
  {
    assert (4 * q + k) % 4 == k;
  }

  lemma {:induction false} SextetsRoundTrip(bs: seq<Byte>)
    ensures Unsextets(Sextets(bs)) == Some(bs)
    decreases |bs|
  {
    if |bs| >= 3 {
      SextetsRoundTrip(bs[3..]);
      var ss := Sextets(bs);
      assert ss[4..] == Sextets(bs[3..]);
      assert bs == [bs[0], bs[1], bs[2]] + bs[3..];
      GroupRoundTrip(bs[0], bs[1], bs[2]);
    } else if |bs| == 2 {
      GroupRoundTrip(bs[0], bs[1], 0);
      assert bs == [bs[0], bs[1]];
    } else if |bs| == 1 {
      assert bs == [bs[0]];
    }
  }

  lemma GroupRoundTrip(a: Byte, b: Byte, c: Byte)
    ensures var s0, s1, s2, s3 := a / 4, a % 4 * 16 + b / 16, b % 16 * 4 + c / 64, c % 64;
      && s0 < 64 && s1 < 64 && s2 < 64
      && First(s0, s1) == a && Second(s1, s2) == b && Third(s2, s3) == c
  {
  }

  lemma CharRoundTrip(s: Sextet)
    ensures Value(Char(s)) == Some(s) && Char(s) != PAD
    ensures FromUrlUnit(ToUrlUnit(Char(s))) == Char(s) && ToUrlUnit(Char(s)) != PAD
  {
  }

  lemma {:induction false} ValuesRoundTrip(ss: seq<Sextet>)
    ensures Values(Map(ss, Char)) == Some(ss)
  {
    if ss != [] {
      CharRoundTrip(ss[0]);
      ValuesRoundTrip(ss[1..]);
      assert Map(ss, Char)[1..] == Map(ss[1..], Char);
      assert ss == [ss[0]] + ss[1..];
    }
  }

  lemma {:induction false} StripPads(t: Text, n: nat)
    requires t == [] || t[|t| - 1] != PAD
    ensures Strip(t + Pads(n)) == t
  {
    PadsAtEnd(t, n);
    if n > 0 { StripPads(t, n - 1); } else { assert t + Pads(0) == t; }
  }

  lemma {:induction false} PadsAtEnd(t: Text, n: nat)
    ensures n > 0 ==> (t + Pads(n))[..|t| + n - 1] == t + Pads(n - 1)
  {
    if n > 0 { assert Pads(n)[..n - 1] == Pads(n - 1); }
  }

  lemma {:induction false} DropThePads(t: Text, n: nat, most: nat)
    requires n <= most && (t == [] || t[|t| - 1] != PAD)
    ensures DropPads(t + Pads(n), most) == t
  {
    PadsAtEnd(t, n);
    if n > 0 { DropThePads(t, n - 1, most - 1); } else { assert t + Pads(0) == t; }
  }

  /** The URL form is the sextets in the URL alphabet, without padding. */
  lemma UrlForm(bs: seq<Byte>)
    ensures ToUrl(bs) == Map(Sextets(bs), (s: Sextet) => ToUrlUnit(Char(s)))
    ensures forall i :: 0 <= i < |ToUrl(bs)| ==> ToUrl(bs)[i] !in {PLUS, SLASH, PAD}
  {
    var n := if |bs| % 3 == 0 then 0 else 3 - |bs| % 3;
    var body := Map(Sextets(bs), (s: Sextet) => ToUrlUnit(Char(s)));
    assert Map(Btoa(bs), ToUrlUnit) == body + Pads(n);
    forall i | 0 <= i < |body| ensures body[i] !in {PLUS, SLASH, PAD} { CharRoundTrip(Sextets(bs)[i]); }
    StripPads(body, n);
  }

  /** The bits of bytes and of sextets, two at a time. */
  function FourDigits(b: Byte): seq<nat> { [b / 64, b / 16 % 4, b / 4 % 4, b % 4] }
  function ThreeDigits(s: Sextet): seq<nat> { [s / 16, s / 4 % 4, s % 4] }

  function ByteDigits(bs: seq<Byte>): seq<nat> { if bs == [] then [] else FourDigits(bs[0]) + ByteDigits(bs[1..]) }

  function SextetDigits(ss: seq<Sextet>): seq<nat> {
    if ss == [] then [] else ThreeDigits(ss[0]) + SextetDigits(ss[1..])
  }

  lemma Three(p: nat, q: nat, r: nat)
    requires p < 4 && q < 4 && r < 4
    ensures ThreeDigits(16 * p + 4 * q + r) == [p, q, r]
  {
    var s := 16 * p + 4 * q + r;
    assert s / 4 == 4 * p + q;
  }

  /** A byte by its digits. */
  lemma Quarters(b: Byte) returns (p: nat, q: nat, r: nat, t: nat)
    ensures p < 4 && q < 4 && r < 4 && t < 4 && b == 64 * p + 16 * q + 4 * r + t && FourDigits(b) == [p, q, r, t]
    ensures b / 4 == 16 * p + 4 * q + r && b % 4 == t && b / 16 == 4 * p + q && b % 16 == 4 * r + t
    ensures b / 64 == p && b % 64 == 16 * q + 4 * r + t
  {
    p, q, r, t := b / 64, b / 16 % 4, b / 4 % 4, b % 4;
    assert b / 4 == b / 16 * 4 + b / 4 % 4 && b / 16 == b / 64 * 4 + b / 16 % 4;
  }

  lemma GroupDigits(a: Byte, b: Byte, c: Byte)
    ensures ThreeDigits(a / 4) + ThreeDigits(a % 4 * 16 + b / 16) + ThreeDigits(b % 16 * 4 + c / 64)
            + ThreeDigits(c % 64)
            == FourDigits(a) + FourDigits(b) + FourDigits(c)
  {
    var p, q, r, t := Quarters(a);
    var p', q', r', t' := Quarters(b);
    var p'', q'', r'', t'' := Quarters(c);
    Three(p, q, r);
    Three(t, p', q');
    Three(r', t', p'');
    Three(q'', r'', t'');
  }

  lemma OneSextet(s: Sextet)
    ensures SextetDigits([s]) == ThreeDigits(s)
  {
    assert [s][1..] == [] && ThreeDigits(s) + [] == ThreeDigits(s);
  }

  lemma OneByte(b: Byte)
    ensures ByteDigits([b]) == FourDigits(b)
  {
    assert [b][1..] == [] && FourDigits(b) + [] == FourDigits(b);
  }

  lemma TwoSextets(s: Sextet, t: Sextet)
    ensures SextetDigits([s, t]) == ThreeDigits(s) + ThreeDigits(t)
  {
    OneSextet(s);
    OneSextet(t);
    DigitsAppend([s], [t]);
    assert [s] + [t] == [s, t];
  }

  lemma TwoBytes(a: Byte, b: Byte)
    ensures ByteDigits([a, b]) == FourDigits(a) + FourDigits(b)
  {
    OneByte(a);
    OneByte(b);
    ByteDigitsAppend([a], [b]);
    assert [a] + [b] == [a, b];
  }

  lemma {:induction false} DigitsAppend(xs: seq<Sextet>, ys: seq<Sextet>)
    ensures SextetDigits(xs + ys) == SextetDigits(xs) + SextetDigits(ys)
  {
    if xs == [] {
      assert xs + ys == ys;
    } else {
      assert (xs + ys)[1..] == xs[1..] + ys;
      DigitsAppend(xs[1..], ys);
    }
  }

  lemma {:induction false} ByteDigitsAppend(xs: seq<Byte>, ys: seq<Byte>)
    ensures ByteDigits(xs + ys) == ByteDigits(xs) + ByteDigits(ys)
  {
    if xs == [] {
      assert xs + ys == ys;
    } else {
      assert (xs + ys)[1..] == xs[1..] + ys;
      ByteDigitsAppend(xs[1..], ys);
    }
  }

  function Group(a: Byte, b: Byte, c: Byte): seq<Sextet> {
    [a / 4, a % 4 * 16 + b / 16, b % 16 * 4 + c / 64, c % 64]
  }

  lemma WholeGroup(a: Byte, b: Byte, c: Byte)
    ensures SextetDigits(Group(a, b, c)) == ByteDigits([a, b, c])
  {
    var s, t, u, v := a / 4, a % 4 * 16 + b / 16, b % 16 * 4 + c / 64, c % 64;
    TwoSextets(s, t);
    TwoSextets(u, v);
    DigitsAppend([s, t], [u, v]);
    assert [s, t] + [u, v] == [s, t, u, v];
    TwoBytes(a, b);
    OneByte(c);
    ByteDigitsAppend([a, b], [c]);
    assert [a, b] + [c] == [a, b, c];
    GroupDigits(a, b, c);
  }

  lemma OneLeft(a: Byte)
    ensures SextetDigits([a / 4, a % 4 * 16]) == ByteDigits([a]) + [0, 0]
  {
    TwoSextets(a / 4, a % 4 * 16);
    OneByte(a);
    var p, q, r, t := Quarters(a);
    Three(p, q, r);
    Three(t, 0, 0);
  }

  lemma TwoLeft(a: Byte, b: Byte)
    ensures SextetDigits([a / 4, a % 4 * 16 + b / 16, b % 16 * 4]) == ByteDigits([a, b]) + [0]
  {
    TwoSextets(a / 4, a % 4 * 16 + b / 16);
    OneSextet(b % 16 * 4);
    DigitsAppend([a / 4, a % 4 * 16 + b / 16], [b % 16 * 4]);
    assert [a / 4, a % 4 * 16 + b / 16] + [b % 16 * 4] == [a / 4, a % 4 * 16 + b / 16, b % 16 * 4];
    TwoBytes(a, b);
    var p, q, r, t := Quarters(a);
    var p', q', r', t' := Quarters(b);
    Three(p, q, r);
    Three(t, p', q');
    Three(r', t', 0);
  }

  lemma GroupAhead(a: Byte, b: Byte, c: Byte, rest: seq<Byte>)
    ensures Sextets([a, b, c] + rest) == Group(a, b, c) + Sextets(rest)
  {
    assert ([a, b, c] + rest)[3..] == rest;
  }

  function Spare(n: nat): seq<nat> { if n % 3 == 0 then [] else if n % 3 == 1 then [0, 0] else [0] }

  /** The sextets hold the bits of the bytes in order, and after them only the zeros of the last sextet. */
  ghost predicate BitsKept(bs: seq<Byte>) { SextetDigits(Sextets(bs)) == ByteDigits(bs) + Spare(|bs|) }

  lemma LastByte(a: Byte)
    ensures BitsKept([a])
  {
    var ss: seq<Sextet> := [a / 4, a % 4 * 16];
    assert Sextets([a]) == ss;
    OneLeft(a);
  }

  lemma LastTwo(a: Byte, b: Byte)
    ensures BitsKept([a, b])
  {
    var ss: seq<Sextet> := [a / 4, a % 4 * 16 + b / 16, b % 16 * 4];
    assert Sextets([a, b]) == ss;
    TwoLeft(a, b);
  }

  lemma NoByte()
    ensures BitsKept([])
  {
  }

  lemma SpareAfter(n: nat)
    ensures Spare(n + 3) == Spare(n)
  {
  }

  lemma MoreBits(a: Byte, b: Byte, c: Byte, rest: seq<Byte>)
    requires BitsKept(rest)
    ensures BitsKept([a, b, c] + rest)
  {
    GroupAhead(a, b, c, rest);
    WholeGroup(a, b, c);
    DigitsAppend(Group(a, b, c), Sextets(rest));
    ByteDigitsAppend([a, b, c], rest);
    SpareAfter(|rest|);
    Assoc(ByteDigits([a, b, c]), ByteDigits(rest), Spare(|rest|));
  }

  /** Encoding keeps every bit and adds only the zeros that fill the last sextet. */
  lemma {:induction false} SextetsBits(bs: seq<Byte>)
    ensures BitsKept(bs)
    decreases |bs|
  {
    if bs == [] {
      NoByte();
    } else if |bs| == 1 {
      assert bs == [bs[0]];
      LastByte(bs[0]);
    } else if |bs| == 2 {
      assert bs == [bs[0], bs[1]];
      LastTwo(bs[0], bs[1]);
    } else {
      SextetsBits(bs[3..]);
      MoreBits(bs[0], bs[1], bs[2], bs[3..]);
      assert bs == [bs[0], bs[1], bs[2]] + bs[3..];
    }
  }

  /** The URL alphabet of RFC 4648. */
  lemma Alphabet(s: Sextet)
    ensures var u: int := ToUrlUnit(Char(s));
      && (s < 26 ==> u == 'A' as int + s) && (26 <= s < 52 ==> u == 'a' as int + s - 26)
      && (52 <= s < 62 ==> u == '0' as int + s - 52)
      && (s == 62 ==> u == '-' as int) && (s == 63 ==> u == '_' as int)
    ensures PAD == '=' as int
  {
  }

  lemma UrlBack(bs: seq<Byte>)
    ensures Map(ToUrl(bs), FromUrlUnit) == Map(Sextets(bs), Char)
  {
    var ss, url := Sextets(bs), ToUrl(bs);
    UrlForm(bs);
    forall i | 0 <= i < |ss| ensures FromUrlUnit(url[i]) == Char(ss[i]) { CharRoundTrip(ss[i]); }
  }

  lemma WholeGroups(q: nat)
    ensures (4 * q) % 4 == 0
  {
  }

  lemma AtobOfChars(ss: seq<Sextet>, n: nat, t: Text)
    requires n <= 2 && t == Map(ss, Char) + Pads(n) && |t| % 4 == 0
    ensures Atob(t) == Unsextets(ss)
  {
    if ss != [] { CharRoundTrip(ss[|ss| - 1]); }
    DropThePads(Map(ss, Char), n, 2);
    ValuesRoundTrip(ss);
  }

  lemma RestoreAny(bs: seq<Byte>, n: nat)
    requires n == JournalPad(|ToUrl(bs)|)
    ensures Atob(Map(ToUrl(bs), FromUrlUnit) + Pads(n)) == Some(bs)
  {
    UrlForm(bs);
    UrlBack(bs);
    var q, r := SextetsLength(bs);
    PadOf(q, if r == 0 then 0 else r + 1);
    SextetsRoundTrip(bs);
    var t := Map(ToUrl(bs), FromUrlUnit) + Pads(n);
    assert |t| == 4 * (if r == 0 then q else q + 1);
    WholeGroups(if r == 0 then q else q + 1);
    AtobOfChars(Sextets(bs), n, t);
  }

  /** Stripping the padding, restoring it by any of the three formulas and decoding gives the bytes back. */
  lemma UrlRoundTrip(bs: seq<Byte>)
    ensures FromUrl(ToUrl(bs), JournalPad) == FromUrl(ToUrl(bs), PlanePad) == FromUrl(ToUrl(bs), MailboxPad) == Some(bs)
  {
    PadsAgree(|ToUrl(bs)|);
    RestoreAny(bs, JournalPad(|ToUrl(bs)|));
  }

  /** So no two byte sequences share a URL form. */
  lemma UrlInjective(a: seq<Byte>, b: seq<Byte>)
    ensures ToUrl(a) == ToUrl(b) <==> a == b
  {
    UrlRoundTrip(a);
    UrlRoundTrip(b);
  }

  /** encodeUtf8Base64Url: the bytes become a binary string one by one. */
  method EncodeUtf8Base64Url(text: Text) returns (url: Text)
    ensures url == ToUrl(Encode(text))
  {
    var bytes := Encode(text);
    var binary: seq<Byte> := [];
    for i := 0 to |bytes|
      invariant binary == bytes[..i]
    {
      binary := binary + [bytes[i]];
    }
    assert bytes[..|bytes|] == bytes;
    url := Strip(Map(Btoa(binary), ToUrlUnit));
  }

  /*** The PKCE challenge (section 4.2 of RFC 7636) ***/

  /** sha256Text: two lower-case hex digits to a byte. */
  function ToHex(bs: seq<Byte>): Text {
    if bs == [] then [] else [HexDigit(bs[0] / 16), HexDigit(bs[0] % 16)] + ToHex(bs[1..])
  }

  function HexOr0(u: CodeUnit): nat { if HexValue(u).Some? then HexValue(u).value else 0 }

  /** match(/.{1,2}/g).map(h => parseInt(h, 16)), on hex digits */
  function HexBytes(t: Text): seq<Byte> {
    if t == [] then []
    else if |t| == 1 then [HexOr0(t[0])]
    else [HexOr0(t[0]) * 16 + HexOr0(t[1])] + HexBytes(t[2..])
  }

  lemma {:induction false} HexRoundTrip(bs: seq<Byte>)
    ensures HexBytes(ToHex(bs)) == bs
  {
    if bs != [] {
      HexRoundTrip(bs[1..]);
      var t := ToHex(bs);
      assert t[2..] == ToHex(bs[1..]) && t[0] == HexDigit(bs[0] / 16) && t[1] == HexDigit(bs[0] % 16);
      assert bs == [bs[0]] + bs[1..];
    }
  }

  /** pkceChallengeS256, for a digest function on texts */
  function Challenge(sha256: Text -> seq<Byte>, verifier: Text): Text { ToUrl(HexBytes(ToHex(sha256(verifier)))) }

  /** The challenge is the unpadded encoding of the digest's bytes, so two verifiers share a challenge exactly when
      they share a digest. */
  lemma ChallengeIsDigest(sha256: Text -> seq<Byte>, v: Text, w: Text)
    ensures FromUrl(Challenge(sha256, v), JournalPad) == Some(sha256(v))
    ensures Challenge(sha256, v) == Challenge(sha256, w) <==> sha256(v) == sha256(w)
  {
    HexRoundTrip(sha256(v));
    HexRoundTrip(sha256(w));
    UrlRoundTrip(sha256(v));
    UrlInjective(sha256(v), sha256(w));
  }
}
