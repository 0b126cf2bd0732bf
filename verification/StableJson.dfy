/** The canonical JSON printer behind every stored column, digest and cursor (src/agent-bootstrap.js),
    with a parser for the grammar of RFC 8259 as its inverse. Text is a sequence of UTF-16 code units,
    as JavaScript strings are. */
module StableJson {
  import opened Ordering

  type CodeUnit = n: nat | n < 0x1_0000
  type Text = seq<CodeUnit>

  /** A number is carried as its decimal token; the token <-> double conversion is the engine's. */
  datatype Json =
    | Null
    | Bool(b: bool)
    | Num(token: Text)
    | Str(text: Text)
    | Arr(items: seq<Json>)
    | Obj(members: seq<Member>)
  datatype Member = Member(key: Text, value: Json)

  const QUOTE: CodeUnit := 34
  const COMMA: CodeUnit := 44
  const MINUS: CodeUnit := 45
  const COLON: CodeUnit := 58
  const OPEN_BRACKET: CodeUnit := 91
  const BACKSLASH: CodeUnit := 92
  const CLOSE_BRACKET: CodeUnit := 93
  const OPEN_BRACE: CodeUnit := 123
  const CLOSE_BRACE: CodeUnit := 125
  const NULL_WORD: Text := [110, 117, 108, 108]
  const TRUE_WORD: Text := [116, 114, 117, 101]
  const FALSE_WORD: Text := [102, 97, 108, 115, 101]

  /*** Strings: JSON.stringify's quoting (lone surrogates are escaped) and its inverse ***/

  predicate IsHigh(u: CodeUnit) { 0xD800 <= u < 0xDC00 }
  predicate IsLow(u: CodeUnit) { 0xDC00 <= u < 0xE000 }
  predicate StartsPair(s: Text) { |s| >= 2 && IsHigh(s[0]) && IsLow(s[1]) }

  function HexDigit(n: nat): CodeUnit
    requires n < 16
  {
    if n < 10 then 48 + n else 87 + n
  }

  function HexValue(u: CodeUnit): Option<nat> {
    if 48 <= u < 58 then Some(u - 48)
    else if 97 <= u < 103 then Some(u - 87)
    else if 65 <= u < 71 then Some(u - 55)
    else None
  }

  function UnicodeEscape(u: CodeUnit): Text {
    [BACKSLASH, 117, HexDigit(u / 4096), HexDigit(u / 256 % 16), HexDigit(u / 16 % 16), HexDigit(u % 16)]
  }

  /** The two-unit escapes: the letter written after the backslash. */
  function ShortEscape(u: CodeUnit): Option<CodeUnit> {
    if u == 8 then Some(98)
    else if u == 9 then Some(116)
    else if u == 10 then Some(110)
    else if u == 12 then Some(102)
    else if u == 13 then Some(114)
    else if u == QUOTE then Some(QUOTE)
    else if u == BACKSLASH then Some(BACKSLASH)
    else None
  }

  function ShortUnescape(u: CodeUnit): Option<CodeUnit> {
    if u == 98 then Some(8)
    else if u == 116 then Some(9)
    else if u == 110 then Some(10)
    else if u == 102 then Some(12)
    else if u == 114 then Some(13)
    else if u == QUOTE || u == BACKSLASH || u == 47 then Some(u)
    else None
  }

  function EscapeUnit(u: CodeUnit): Text {
    match ShortEscape(u)
    case Some(letter) => [BACKSLASH, letter]
    case None => if u < 32 || IsHigh(u) || IsLow(u) then UnicodeEscape(u) else [u]
  }

  function Escape(s: Text): Text {
    if s == [] then []
    else if StartsPair(s) then s[..2] + Escape(s[2..])
    else EscapeUnit(s[0]) + Escape(s[1..])
  }

  function Quote(s: Text): Text { [QUOTE] + Escape(s) + [QUOTE] }

  datatype Parsed<+T> = Fail | Ok(value: T, rest: Text)

  /** The code unit denoted at the head of a string body. */
  function ParseUnit(t: Text): (r: Parsed<CodeUnit>)
    ensures r.Ok? ==> |r.rest| < |t|
  {
    if t == [] || t[0] < 32 || t[0] == QUOTE then Fail
    else if t[0] != BACKSLASH then Ok(t[0], t[1..])
    else if |t| < 2 then Fail
    else if t[1] != 117 then
      match ShortUnescape(t[1]) case None => Fail case Some(u) => Ok(u, t[2..])
    else if |t| < 6 then Fail
    else
      match (HexValue(t[2]), HexValue(t[3]), HexValue(t[4]), HexValue(t[5]))
      case (Some(a), Some(b), Some(c), Some(d)) =>
        var u := a * 4096 + b * 256 + c * 16 + d;
        if u < 0x1_0000 then Ok(u, t[6..]) else Fail
      case _ => Fail
  }

  /** The body of a string, up to and including the closing quote. */
  function ParseString(t: Text): (r: Parsed<Text>)
    ensures r.Ok? ==> |r.rest| < |t|
    decreases |t|
  {
    if t == [] then Fail
    else if t[0] == QUOTE then Ok([], t[1..])
    else
      var u := ParseUnit(t);
      if u.Fail? then Fail
      else
        var s := ParseString(u.rest);
        if s.Fail? then Fail else Ok([u.value] + s.value, s.rest)
  }

  lemma ShortRoundTrip(u: CodeUnit, rest: Text)
    requires ShortEscape(u).Some?
    ensures ParseUnit(EscapeUnit(u) + rest) == Ok(u, rest)
  {
    var t := EscapeUnit(u) + rest;
    assert t[0] == BACKSLASH && t[1] == ShortEscape(u).value && t[2..] == rest;
  }

  lemma HexRoundTrip(u: CodeUnit, rest: Text)
    ensures ParseUnit(UnicodeEscape(u) + rest) == Ok(u, rest)
  {
    var t := UnicodeEscape(u) + rest;
    assert t[6..] == rest;
    assert t[0] == BACKSLASH && t[1] == 117;
    assert t[2] == HexDigit(u / 4096) && t[3] == HexDigit(u / 256 % 16);
    assert t[4] == HexDigit(u / 16 % 16) && t[5] == HexDigit(u % 16);
    Digits(u);
  }

  lemma Digits(u: CodeUnit)
    ensures u == u / 4096 * 4096 + u / 256 % 16 * 256 + u / 16 % 16 * 16 + u % 16
  {
    assert u / 256 == u / 4096 * 16 + u / 256 % 16;
    assert u / 16 == u / 256 * 16 + u / 16 % 16;
  }

  lemma UnitRoundTrip(u: CodeUnit, rest: Text)
    ensures ParseUnit(EscapeUnit(u) + rest) == Ok(u, rest)
    ensures EscapeUnit(u)[0] != QUOTE
  {
    if ShortEscape(u).Some? {
      ShortRoundTrip(u, rest);
    } else if u < 32 || IsHigh(u) || IsLow(u) {
      HexRoundTrip(u, rest);
    } else {
      Cons(u, rest);
    }
  }

  lemma StringStep(t: Text, u: CodeUnit, next: Text, s: Text, rest: Text)
    requires t != [] && t[0] != QUOTE && ParseUnit(t) == Ok(u, next)
    requires ParseString(next) == Ok(s, rest)
    ensures ParseString(t) == Ok([u] + s, rest)
  {
  }

  lemma RawStep(u: CodeUnit, next: Text, s: Text, rest: Text)
    requires u >= 0x80 && ParseString(next) == Ok(s, rest)
    ensures ParseString([u] + next) == Ok([u] + s, rest)
  {
    Cons(u, next);
    StringStep([u] + next, u, next, s, rest);
  }

  lemma EscapedStep(u: CodeUnit, next: Text, s: Text, rest: Text)
    requires ParseString(next) == Ok(s, rest)
    ensures ParseString(EscapeUnit(u) + next) == Ok([u] + s, rest)
  {
    UnitRoundTrip(u, next);
    StringStep(EscapeUnit(u) + next, u, next, s, rest);
  }

  lemma PairStep(a: CodeUnit, b: CodeUnit, next: Text, s: Text, rest: Text)
    requires IsHigh(a) && IsLow(b) && ParseString(next) == Ok(s, rest)
    ensures ParseString([a, b] + next) == Ok([a, b] + s, rest)
  {
    RawStep(b, next, s, rest);
    RawStep(a, [b] + next, [b] + s, rest);
    Assoc([a], [b], next);
    Assoc([a], [b], s);
    assert [a] + [b] == [a, b];
  }

  /** Quoting then scanning a string gives it back, lone surrogates included. */
  lemma {:induction false} StringRoundTrip(s: Text, rest: Text)
    ensures ParseString(Escape(s) + ([QUOTE] + rest)) == Ok(s, rest)
    decreases |s|
  {
    var tail := [QUOTE] + rest;
    if s == [] {
      assert Escape(s) + tail == tail && tail[1..] == rest;
    } else if StartsPair(s) {
      StringRoundTrip(s[2..], rest);
      Assoc([s[0], s[1]], Escape(s[2..]), tail);
      PairStep(s[0], s[1], Escape(s[2..]) + tail, s[2..], rest);
      assert s[..2] == [s[0], s[1]] && s == [s[0], s[1]] + s[2..];
    } else {
      StringRoundTrip(s[1..], rest);
      Assoc(EscapeUnit(s[0]), Escape(s[1..]), tail);
      EscapedStep(s[0], Escape(s[1..]) + tail, s[1..], rest);
      assert s == [s[0]] + s[1..];
    }
  }

  /*** Numbers: section 6 of RFC 8259 ***/

  predicate IsDigit(u: CodeUnit) { 48 <= u < 58 }
  predicate IsNumberUnit(u: CodeUnit) { IsDigit(u) || u in {43, 45, 46, 69, 101} }

  function DropDigits(t: Text): (r: Text)
    ensures |r| <= |t|
  {
    if t != [] && IsDigit(t[0]) then DropDigits(t[1..]) else t
  }

  predicate ExponentOk(t: Text) {
    t == [] || (t[0] in {69, 101} &&
      var d := if |t| > 1 && t[1] in {43, 45} then t[2..] else t[1..];
      d != [] && DropDigits(d) == [])
  }

  predicate FractionOk(t: Text) {
    if t != [] && t[0] == 46 then |t| > 1 && IsDigit(t[1]) && ExponentOk(DropDigits(t[1..]))
    else ExponentOk(t)
  }

  /** -? (0 | [1-9][0-9]*) (. [0-9]+)? ([eE] [+-]? [0-9]+)? */
  predicate IsNumber(t: Text) {
    && (forall i :: 0 <= i < |t| ==> IsNumberUnit(t[i]))
    && var m := if t != [] && t[0] == MINUS then t[1..] else t;
       m != [] && IsDigit(m[0]) && FractionOk(if m[0] == 48 then m[1..] else DropDigits(m))
  }

  function NumberRun(t: Text): (n: nat)
    ensures n <= |t| && forall i :: 0 <= i < n ==> IsNumberUnit(t[i])
    ensures n < |t| ==> !IsNumberUnit(t[n])
  {
    if t != [] && IsNumberUnit(t[0]) then 1 + NumberRun(t[1..]) else 0
  }

  lemma NumberRunExact(token: Text, rest: Text)
    requires forall i :: 0 <= i < |token| ==> IsNumberUnit(token[i])
    requires rest == [] || !IsNumberUnit(rest[0])
    ensures NumberRun(token + rest) == |token|
  {
    var t := token + rest;
    assert forall i :: 0 <= i < |token| ==> t[i] == token[i];
    assert rest != [] ==> t[|token|] == rest[0];
  }

  /*** Trees ***/

  predicate TextLeq(a: Text, b: Text) {
    a == [] || (b != [] && (a[0] < b[0] || (a[0] == b[0] && TextLeq(a[1..], b[1..]))))
  }

  lemma {:induction false} TextTotal(a: Text, b: Text)
    ensures TextLeq(a, b) || TextLeq(b, a)
    ensures TextLeq(a, b) && TextLeq(b, a) ==> a == b
    decreases |a|
  {
    if a != [] && b != [] && a[0] == b[0] {
      TextTotal(a[1..], b[1..]);
      assert a == [a[0]] + a[1..] && b == [b[0]] + b[1..];
    }
  }

  lemma {:induction false} TextTransitive(a: Text, b: Text, c: Text)
    requires TextLeq(a, b) && TextLeq(b, c)
    ensures TextLeq(a, c)
    decreases |a|
  {
    if a != [] && a[0] == b[0] && b[0] == c[0] { TextTransitive(a[1..], b[1..], c[1..]); }
  }

  /** The printed members, before they are put in key order. */
  datatype Rendered = Rendered(key: Text, text: Text)

  predicate RenderedLeq(a: Rendered, b: Rendered) { TextLeq(a.key, b.key) }
  predicate KeyLeq(a: Member, b: Member) { TextLeq(a.key, b.key) }

  function Join(parts: seq<Text>): Text {
    if parts == [] then []
    else if |parts| == 1 then parts[0]
    else parts[0] + [COMMA] + Join(parts[1..])
  }

  function MemberText(r: Rendered): Text { Quote(r.key) + [COLON] + r.text }

  /** stableJson: members in key order, no white space. */
  function Print(v: Json): Text
    decreases v, 1
  {
    match v
    case Null => NULL_WORD
    case Bool(b) => if b then TRUE_WORD else FALSE_WORD
    case Num(token) => token
    case Str(text) => Quote(text)
    case Arr(items) => [OPEN_BRACKET] + Join(PrintAll(items)) + [CLOSE_BRACKET]
    case Obj(members) =>
      [OPEN_BRACE] + Join(Map(Sort(RenderAll(members), RenderedLeq), MemberText)) + [CLOSE_BRACE]
  }

  function PrintAll(items: seq<Json>): seq<Text>
    decreases items, 0
  {
    if items == [] then [] else [Print(items[0])] + PrintAll(items[1..])
  }

  function RenderAll(members: seq<Member>): seq<Rendered>
    decreases members, 0
  {
    if members == [] then [] else [Rendered(members[0].key, Print(members[0].value))] + RenderAll(members[1..])
  }

  /** A tree a JavaScript value can be: valid numbers, and no key twice in one object. */
  ghost predicate WellFormed(v: Json) {
    match v
    case Num(token) => IsNumber(token)
    case Arr(items) => forall i :: 0 <= i < |items| ==> WellFormed(items[i])
    case Obj(members) =>
      && (forall i :: 0 <= i < |members| ==> WellFormed(members[i].value))
      && DistinctKeys(members)
    case _ => true
  }

  ghost predicate DistinctKeys(members: seq<Member>) {
    forall i, j :: 0 <= i < j < |members| ==> members[i].key != members[j].key
  }

  /** Equality up to the order of members, at every level. */
  ghost predicate Same(v: Json, w: Json)
    decreases v, 1
  {
    match (v, w)
    case (Arr(a), Arr(b)) => |a| == |b| && forall i :: 0 <= i < |a| ==> Same(a[i], b[i])
    case (Obj(a), Obj(b)) => |a| == |b| && forall i :: 0 <= i < |a| ==> SameIn(a[i], b)
    case _ => v == w
  }

  /** Some member of b has m's key and, up to order, m's value. */
  ghost predicate SameIn(m: Member, b: seq<Member>)
    decreases m, 0
  {
    exists j :: 0 <= j < |b| && m.key == b[j].key && Same(m.value, b[j].value)
  }

  /** The representative of a tree under Same: every object in key order. */
  function Canon(v: Json): Json
    decreases v, 1
  {
    match v
    case Arr(items) => Arr(CanonAll(items))
    case Obj(members) => Obj(Sort(CanonMembers(members), KeyLeq))
    case _ => v
  }

  function CanonAll(items: seq<Json>): (r: seq<Json>)
    ensures |r| == |items|
    ensures forall i :: 0 <= i < |items| ==> r[i] == Canon(items[i])
    decreases items, 0
  {
    if items == [] then [] else [Canon(items[0])] + CanonAll(items[1..])
  }

  function CanonMembers(members: seq<Member>): (r: seq<Member>)
    ensures |r| == |members|
    ensures forall i :: 0 <= i < |members| ==> r[i] == Member(members[i].key, Canon(members[i].value))
    decreases members, 0
  {
    if members == [] then [] else [Member(members[0].key, Canon(members[0].value))] + CanonMembers(members[1..])
  }

  lemma KeyPreorder()
    ensures Preorder(KeyLeq)
  {
    forall x: Member, y: Member ensures KeyLeq(x, y) || KeyLeq(y, x) { TextTotal(x.key, y.key); }
    forall x: Member, y: Member, z: Member | KeyLeq(x, y) && KeyLeq(y, z) ensures KeyLeq(x, z) {
      TextTransitive(x.key, y.key, z.key);
    }
  }

  lemma KeyAntisymmetric(members: seq<Member>)
    requires DistinctKeys(members)
    ensures AntisymmetricOn(members, KeyLeq)
  {
    forall i, j | 0 <= i < |members| && 0 <= j < |members|
               && KeyLeq(members[i], members[j]) && KeyLeq(members[j], members[i])
      ensures members[i] == members[j]
    {
      TextTotal(members[i].key, members[j].key);
    }
  }

  /*** The parser ***/

  function SkipWs(t: Text): (r: Text)
    ensures |r| <= |t|
  {
    if t != [] && t[0] in {32, 9, 10, 13} then SkipWs(t[1..]) else t
  }

  function ParseWord(t: Text, word: Text, v: Json): (r: Parsed<Json>)
    requires word != []
    ensures r.Ok? ==> |r.rest| < |t|
  {
    if word <= t then Ok(v, t[|word|..]) else Fail
  }

  function ParseNumber(t: Text): (r: Parsed<Json>)
    ensures r.Ok? ==> |r.rest| < |t|
  {
    var n := NumberRun(t);
    if n > 0 && IsNumber(t[..n]) then Ok(Num(t[..n]), t[n..]) else Fail
  }

  function ParseValue(t: Text): (r: Parsed<Json>)
    ensures r.Ok? ==> |r.rest| < |t|
    decreases |t|, 1
  {
    var u := SkipWs(t);
    if u == [] then Fail
    else if u[0] == 110 then ParseWord(u, NULL_WORD, Null)
    else if u[0] == 116 then ParseWord(u, TRUE_WORD, Bool(true))
    else if u[0] == 102 then ParseWord(u, FALSE_WORD, Bool(false))
    else if u[0] == QUOTE then
      var s := ParseString(u[1..]);
      if s.Fail? then Fail else Ok(Str(s.value), s.rest)
    else if u[0] == OPEN_BRACKET then
      var w := SkipWs(u[1..]);
      if w != [] && w[0] == CLOSE_BRACKET then Ok(Arr([]), w[1..])
      else
        var items := ParseItems(u[1..]);
        if items.Fail? then Fail else Ok(Arr(items.value), items.rest)
    else if u[0] == OPEN_BRACE then
      var w := SkipWs(u[1..]);
      if w != [] && w[0] == CLOSE_BRACE then Ok(Obj([]), w[1..])
      else
        var members := ParseMembers(u[1..]);
        if members.Fail? then Fail else Ok(Obj(members.value), members.rest)
    else ParseNumber(u)
  }

  function ParseItems(t: Text): (r: Parsed<seq<Json>>)
    ensures r.Ok? ==> |r.rest| < |t|
    decreases |t|, 2
  {
    var v := ParseValue(t);
    if v.Fail? then Fail
    else
      var u := SkipWs(v.rest);
      if u != [] && u[0] == CLOSE_BRACKET then Ok([v.value], u[1..])
      else if u != [] && u[0] == COMMA then
        var more := ParseItems(u[1..]);
        if more.Fail? then Fail else Ok([v.value] + more.value, more.rest)
      else Fail
  }

  function ParseMember(t: Text): (r: Parsed<Member>)
    ensures r.Ok? ==> |r.rest| < |t|
    decreases |t|, 0
  {
    var u := SkipWs(t);
    if u == [] || u[0] != QUOTE then Fail
    else
      var key := ParseString(u[1..]);
      if key.Fail? then Fail
      else
        var w := SkipWs(key.rest);
        if w == [] || w[0] != COLON then Fail
        else
          var v := ParseValue(w[1..]);
          if v.Fail? then Fail else Ok(Member(key.value, v.value), v.rest)
  }

  function ParseMembers(t: Text): (r: Parsed<seq<Member>>)
    ensures r.Ok? ==> |r.rest| < |t|
    decreases |t|, 1
  {
    var m := ParseMember(t);
    if m.Fail? then Fail
    else
      var u := SkipWs(m.rest);
      if u != [] && u[0] == CLOSE_BRACE then Ok([m.value], u[1..])
      else if u != [] && u[0] == COMMA then
        var more := ParseMembers(u[1..]);
        if more.Fail? then Fail else Ok([m.value] + more.value, more.rest)
      else Fail
  }

  /** JSON.parse: one value and nothing but white space after it. */
  function Parse(t: Text): Option<Json> {
    var v := ParseValue(t);
    if v.Ok? && SkipWs(v.rest) == [] then Some(v.value) else None
  }

  /** parseJsonField: a missing, empty or malformed column reads as the fallback. */
  function ParseJsonField(column: Option<Text>, fallback: Json): Json {
    match column
    case None => fallback
    case Some(text) =>
      if text == [] then fallback else match Parse(text) case Some(v) => v case None => fallback
  }
}
