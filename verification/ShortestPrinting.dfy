/** stableJson writes the shortest text (src/agent-bootstrap.js): of all JSON texts without a lone surrogate that spell
    a value, its output is the shortest, and of the strings that are as short the only one with lower-case hex. */
module ShortestPrinting {
  import opened Ordering
  import opened StableJson
  import opened Utf8
  import opened CanonicalPrinting

  /*** Strings ***/

  predicate IsUpperHex(u: CodeUnit) { 65 <= u < 71 }

  /** No hex digit of an escape ahead of the closing quote is an upper-case letter. */
  predicate LowerHex(t: Text)
    decreases |t|
  {
    ParseUnit(t).Ok? ==>
      && (|t| >= 6 && t[0] == BACKSLASH && t[1] == 117 ==> forall k :: 2 <= k < 6 ==> !IsUpperHex(t[k]))
      && LowerHex(ParseUnit(t).rest)
  }

  lemma EscapeSize(u: CodeUnit)
    ensures |EscapeUnit(u)| == if u in {8, 9, 10, 12, 13, 34, 92} then 2
                               else if u < 32 || IsHigh(u) || IsLow(u) then 6 else 1
  {
  }

  lemma RawUnit(t: Text)
    requires ParseUnit(t).Ok? && t[0] != BACKSLASH && Paired(t) && !StartsPair(t)
    ensures var p := ParseUnit(t);
      && p == Ok(t[0], t[1..]) && Paired(p.rest) && EscapeUnit(t[0]) == [t[0]]
      && t == EscapeUnit(t[0]) + p.rest
  {
    assert t == [t[0]] + t[1..];
  }

  lemma PairedDrop(t: Text, k: nat)
    requires Paired(t) && k <= |t| && forall i :: 0 <= i < k ==> !IsHigh(t[i]) && !IsLow(t[i])
    ensures Paired(t[k..])
    decreases k
  {
    if k > 0 {
      assert t[1..][k - 1..] == t[k..];
      PairedDrop(t[1..], k - 1);
    }
  }

  lemma HexDigits(a: nat, b: nat, c: nat, d: nat)
    requires a < 16 && b < 16 && c < 16 && d < 16
    ensures var u := a * 4096 + b * 256 + c * 16 + d;
      u / 4096 == a && u / 256 % 16 == b && u / 16 % 16 == c && u % 16 == d
  {
    var u := a * 4096 + b * 256 + c * 16 + d;
    assert u / 16 == a * 256 + b * 16 + c && u / 256 == a * 16 + b;
  }

  lemma LowerDigit(u: CodeUnit)
    requires HexValue(u).Some? && !IsUpperHex(u)
    ensures HexDigit(HexValue(u).value) == u
  {
  }

  lemma ShortUnit(t: Text)
    requires Paired(t) && ParseUnit(t).Ok? && t[0] == BACKSLASH && t[1] != 117
    ensures var p := ParseUnit(t);
      && Paired(p.rest) && |EscapeUnit(p.value)| + |p.rest| <= |t|
      && (|EscapeUnit(p.value)| + |p.rest| == |t| ==> t == EscapeUnit(p.value) + p.rest)
  {
    PairedDrop(t, 2);
    EscapeSize(ParseUnit(t).value);
    assert t == [t[0], t[1]] + t[2..];
  }

  lemma HexUnit(t: Text)
    requires Paired(t) && ParseUnit(t).Ok? && t[0] == BACKSLASH && t[1] == 117
    ensures var p := ParseUnit(t);
      && Paired(p.rest) && |EscapeUnit(p.value)| + |p.rest| <= |t|
      && (LowerHex(t) && |EscapeUnit(p.value)| + |p.rest| == |t| ==> t == EscapeUnit(p.value) + p.rest)
  {
    var u := ParseUnit(t).value;
    PairedDrop(t, 6);
    EscapeSize(u);
    HexDigits(HexValue(t[2]).value, HexValue(t[3]).value, HexValue(t[4]).value, HexValue(t[5]).value);
    if LowerHex(t) && |EscapeUnit(u)| == 6 {
      LowerDigit(t[2]);
      LowerDigit(t[3]);
      LowerDigit(t[4]);
      LowerDigit(t[5]);
      assert UnicodeEscape(u) == t[..6] && t == t[..6] + t[6..];
    }
  }

  /** One unit is spelled by EscapeUnit as shortly as can be. */
  lemma UnitShortest(t: Text)
    requires Paired(t) && !StartsPair(t) && ParseUnit(t).Ok?
    ensures var p := ParseUnit(t);
      && Paired(p.rest) && |EscapeUnit(p.value)| + |p.rest| <= |t|
      && (LowerHex(t) && |EscapeUnit(p.value)| + |p.rest| == |t| ==> t == EscapeUnit(p.value) + p.rest)
  {
    if t[0] != BACKSLASH { RawUnit(t); } else if t[1] != 117 { ShortUnit(t); } else { HexUnit(t); }
  }

  lemma EscapeCons(u: CodeUnit, s: Text)
    ensures |Escape([u] + s)| <= |EscapeUnit(u)| + |Escape(s)|
    ensures |Escape([u] + s)| == |EscapeUnit(u)| + |Escape(s)| ==> Escape([u] + s) == EscapeUnit(u) + Escape(s)
  {
    var both := [u] + s;
    assert both[1..] == s;
    if StartsPair(both) {
      assert both[2..] == s[1..] && !StartsPair(s);
      EscapeSize(u);
      EscapeSize(s[0]);
    }
  }

  /** Of the texts without a lone surrogate that spell a string, the quoted one is the shortest; and of those as short
      it is the only one with lower-case hex. */
  lemma {:induction false} StringShortest(t: Text, s: Text, rest: Text)
    requires Paired(t) && ParseString(t) == Ok(s, rest)
    ensures Paired(rest) && |Escape(s)| + 1 + |rest| <= |t|
    ensures LowerHex(t) && |Escape(s)| + 1 + |rest| == |t| ==> t == Escape(s) + ([QUOTE] + rest)
    decreases |t|
  {
    if t[0] == QUOTE {
      assert t == [QUOTE] + t[1..];
    } else if StartsPair(t) {
      PairShortest(t, s, rest);
    } else {
      var p := ParseUnit(t);
      UnitShortest(t);
      StringShortest(p.rest, s[1..], rest);
      EscapeCons(p.value, s[1..]);
      assert s == [p.value] + s[1..];
      if LowerHex(t) && |Escape(s)| + 1 + |rest| == |t| {
        Assoc(EscapeUnit(p.value), Escape(s[1..]), [QUOTE] + rest);
      }
    }
  }

  lemma {:induction false} PairShortest(t: Text, s: Text, rest: Text)
    requires Paired(t) && StartsPair(t) && ParseString(t) == Ok(s, rest)
    ensures Paired(rest) && |Escape(s)| + 1 + |rest| <= |t|
    ensures LowerHex(t) && |Escape(s)| + 1 + |rest| == |t| ==> t == Escape(s) + ([QUOTE] + rest)
    decreases |t|, 0
  {
    assert t[1..][1..] == t[2..] && ParseUnit(t) == Ok(t[0], t[1..]) && ParseUnit(t[1..]) == Ok(t[1], t[2..]);
    var more := ParseString(t[2..]);
    assert ParseString(t[1..]) == Ok([t[1]] + more.value, more.rest);
    assert s == [t[0]] + ([t[1]] + more.value) && s[2..] == more.value;
    StringShortest(t[2..], s[2..], rest);
    assert s[..2] == t[..2] && Escape(s) == t[..2] + Escape(s[2..]);
    if LowerHex(t) && |Escape(s)| + 1 + |rest| == |t| {
      assert LowerHex(t[1..]) && LowerHex(t[2..]);
      Assoc(t[..2], Escape(s[2..]), [QUOTE] + rest);
      assert t == t[..2] + t[2..];
    }
  }

  /** Every string has such a spelling: the quoted one. */
  lemma {:induction false} EscapeLower(s: Text, rest: Text)
    ensures LowerHex(Escape(s) + ([QUOTE] + rest))
    decreases |s|
  {
    var tail := [QUOTE] + rest;
    if s == [] {
      assert Escape(s) + tail == tail;
    } else if StartsPair(s) {
      EscapeLower(s[2..], rest);
      var next := Escape(s[2..]) + tail;
      assert Escape(s) + tail == [s[0]] + ([s[1]] + next);
      Cons(s[0], [s[1]] + next);
      Cons(s[1], next);
    } else {
      EscapeLower(s[1..], rest);
      Assoc(EscapeUnit(s[0]), Escape(s[1..]), tail);
      UnitLower(s[0], Escape(s[1..]) + tail);
    }
  }

  lemma UnitLower(u: CodeUnit, next: Text)
    requires LowerHex(next)
    ensures LowerHex(EscapeUnit(u) + next)
  {
    StableJson.UnitRoundTrip(u, next);
    EscapeSize(u);
    if |EscapeUnit(u)| == 6 {
      var t := EscapeUnit(u) + next;
      forall k | 2 <= k < 6 ensures !IsUpperHex(t[k]) { assert t[k] == EscapeUnit(u)[k]; }
    }
  }

  /*** Values ***/

  lemma {:induction false} SkipPaired(t: Text)
    requires Paired(t)
    ensures Paired(SkipWs(t))
  {
    if t != [] && t[0] in {32, 9, 10, 13} { SkipPaired(t[1..]); }
  }

  lemma PairedTail(t: Text)
    requires Paired(t) && t != [] && t[0] < 0xD800
    ensures Paired(t[1..])
  {
  }

  lemma WordShortest(t: Text, word: Text, v: Json)
    requires Paired(t) && word != [] && word <= t && forall i :: 0 <= i < |word| ==> word[i] < 0xD800
    ensures Paired(t[|word|..])
  {
    forall i | 0 <= i < |word| ensures t[i] < 0xD800 { assert t[i] == word[i]; }
    PairedDrop(t, |word|);
  }

  lemma NumberShortest(t: Text)
    requires Paired(t) && ParseNumber(t).Ok?
    ensures var p := ParseNumber(t); Paired(p.rest) && |Plain(p.value)| + |p.rest| <= |t|
  {
    PairedDrop(t, NumberRun(t));
  }

  lemma QuotedShortest(t: Text, s: Text, rest: Text)
    requires Paired(t) && t != [] && t[0] == QUOTE && ParseString(t[1..]) == Ok(s, rest)
    ensures Paired(rest) && |Quote(s)| + |rest| <= |t|
  {
    PairedTail(t);
    StringShortest(t[1..], s, rest);
  }

  lemma ArrayShortest(u: Text, v: Json, rest: Text)
    requires Paired(u) && u != [] && u[0] == OPEN_BRACKET && ParseValue(u) == Ok(v, rest)
    ensures v.Arr? && Paired(u[1..])
    ensures v.items == [] ==> Paired(rest) && |Plain(v)| + |rest| <= |u|
    ensures v.items != [] ==> ParseItems(u[1..]) == Ok(v.items, rest)
  {
    PairedTail(u);
    var w := SkipWs(u[1..]);
    SkipPaired(u[1..]);
    if w != [] && w[0] == CLOSE_BRACKET { PairedTail(w); }
  }

  lemma ObjectShortest(u: Text, v: Json, rest: Text)
    requires Paired(u) && u != [] && u[0] == OPEN_BRACE && ParseValue(u) == Ok(v, rest)
    ensures v.Obj? && Paired(u[1..])
    ensures v.members == [] ==> Paired(rest) && |Plain(v)| + |rest| <= |u|
    ensures v.members != [] ==> ParseMembers(u[1..]) == Ok(v.members, rest)
  {
    PairedTail(u);
    var w := SkipWs(u[1..]);
    SkipPaired(u[1..]);
    if w != [] && w[0] == CLOSE_BRACE { PairedTail(w); }
  }

  lemma SkipTwice(t: Text)
    ensures SkipWs(SkipWs(t)) == SkipWs(t) && ParseValue(SkipWs(t)) == ParseValue(t)
  {
  }

  /** No text without a lone surrogate spells a value in fewer units than printing it does. */
  lemma {:induction false} ValueShortest(t: Text, v: Json, rest: Text)
    requires Paired(t) && ParseValue(t) == Ok(v, rest)
    ensures Paired(rest) && |Plain(v)| + |rest| <= |t|
    decreases |t|, 1
  {
    var u := SkipWs(t);
    SkipPaired(t);
    SkipTwice(t);
    if u[0] == 110 {
      WordShortest(u, NULL_WORD, v);
    } else if u[0] == 116 {
      WordShortest(u, TRUE_WORD, v);
    } else if u[0] == 102 {
      WordShortest(u, FALSE_WORD, v);
    } else if u[0] == QUOTE {
      QuotedShortest(u, v.text, rest);
    } else if u[0] == OPEN_BRACKET {
      ArrayShortest(u, v, rest);
      if v.items != [] { ItemsShortest(u[1..], v.items, rest); }
    } else if u[0] == OPEN_BRACE {
      ObjectShortest(u, v, rest);
      if v.members != [] { MembersShortest(u[1..], v.members, rest); }
    } else {
      NumberShortest(u);
    }
  }

  /** The value at the head of a list, the separator after it, and the rest. */
  lemma ListStep(t: Text, taken: nat, after: Text)
    requires Paired(after) && taken + |after| <= |t|
    requires var u := SkipWs(after); u != [] && u[0] < 0xD800
    ensures var u := SkipWs(after); Paired(u[1..]) && taken + 1 + |u[1..]| <= |t|
  {
    SkipPaired(after);
    PairedTail(SkipWs(after));
  }

  lemma JoinSize(part: Text, parts: seq<Text>)
    ensures |Join([part] + parts)| == |part| + if parts == [] then 0 else 1 + |Join(parts)|
  {
    assert ([part] + parts)[1..] == parts;
  }

  lemma {:induction false} ItemsShortest(t: Text, items: seq<Json>, rest: Text)
    requires Paired(t) && ParseItems(t) == Ok(items, rest)
    ensures items != [] && Paired(rest) && |Join(PlainAll(items))| + 1 + |rest| <= |t|
    decreases |t|, 2
  {
    var v := ParseValue(t);
    ValueShortest(t, v.value, v.rest);
    ListStep(t, |Plain(v.value)|, v.rest);
    var u := SkipWs(v.rest);
    JoinSize(Plain(v.value), PlainAll(items[1..]));
    if u[0] == COMMA { ItemsShortest(u[1..], items[1..], rest); }
  }

  lemma {:induction false} MemberShortest(t: Text, m: Member, rest: Text)
    requires Paired(t) && ParseMember(t) == Ok(m, rest)
    ensures Paired(rest) && |Quote(m.key) + [COLON] + Plain(m.value)| + |rest| <= |t|
    decreases |t|, 0
  {
    var u := SkipWs(t);
    SkipPaired(t);
    var key := ParseString(u[1..]);
    QuotedShortest(u, key.value, key.rest);
    ListStep(t, |Quote(key.value)|, key.rest);
    ValueShortest(SkipWs(key.rest)[1..], m.value, rest);
  }

  lemma {:induction false} MembersShortest(t: Text, members: seq<Member>, rest: Text)
    requires Paired(t) && ParseMembers(t) == Ok(members, rest)
    ensures members != [] && Paired(rest) && |Join(PlainMembers(members))| + 1 + |rest| <= |t|
    decreases |t|, 1
  {
    var m := ParseMember(t);
    MemberShortest(t, m.value, m.rest);
    var part := Quote(m.value.key) + [COLON] + Plain(m.value.value);
    ListStep(t, |part|, m.rest);
    var u := SkipWs(m.rest);
    JoinSize(part, PlainMembers(members[1..]));
    if u[0] == COMMA { MembersShortest(u[1..], members[1..], rest); }
  }

  /*** The order of members does not matter for the length ***/

  /** The units all parts take, and the commas between them. */
  function Total(parts: seq<Text>): nat { if parts == [] then 0 else |parts[0]| + Total(parts[1..]) }

  lemma {:induction false} JoinTotal(parts: seq<Text>)
    requires parts != []
    ensures |Join(parts)| == Total(parts) + |parts| - 1
  {
    if |parts| > 1 { JoinTotal(parts[1..]); }
  }

  function MemberSize(m: Member): nat { |Quote(m.key)| + 1 + |Plain(m.value)| }

  function MembersSize(members: seq<Member>): nat {
    if members == [] then 0 else MemberSize(members[0]) + MembersSize(members[1..])
  }

  lemma {:induction false} MembersTotal(members: seq<Member>)
    ensures Total(PlainMembers(members)) == MembersSize(members)
  {
    if members != [] { MembersTotal(members[1..]); }
  }

  lemma {:induction false} InsertSize(m: Member, members: seq<Member>)
    ensures MembersSize(Insert(m, members, KeyLeq)) == MemberSize(m) + MembersSize(members)
  {
    if members == [] || KeyLeq(m, members[0]) {
      Cons(m, members);
    } else {
      InsertSize(m, members[1..]);
      Cons(members[0], Insert(m, members[1..], KeyLeq));
    }
  }

  lemma {:induction false} SortSize(members: seq<Member>)
    ensures MembersSize(Sort(members, KeyLeq)) == MembersSize(members)
  {
    if members != [] {
      SortSize(members[1..]);
      InsertSize(members[0], Sort(members[1..], KeyLeq));
    }
  }

  lemma {:induction false} CanonSize(v: Json)
    ensures |Plain(Canon(v))| == |Plain(v)|
    decreases v, 1
  {
    match v
    case Arr(items) =>
      CanonItemsSize(items);
      if items != [] {
        JoinTotal(PlainAll(items));
        JoinTotal(PlainAll(CanonAll(items)));
      }
    case Obj(members) =>
      var sorted := Sort(CanonMembers(members), KeyLeq);
      CanonMembersSize(members);
      SortSize(CanonMembers(members));
      SortMultiset(CanonMembers(members), KeyLeq);
      assert |sorted| == |multiset(sorted)| == |members|;
      MembersTotal(sorted);
      MembersTotal(members);
      if members != [] {
        JoinTotal(PlainMembers(sorted));
        JoinTotal(PlainMembers(members));
      }
    case _ =>
  }

  lemma {:induction false} CanonItemsSize(items: seq<Json>)
    ensures Total(PlainAll(CanonAll(items))) == Total(PlainAll(items))
    decreases items, 0
  {
    if items != [] {
      CanonSize(items[0]);
      CanonItemsSize(items[1..]);
    }
  }

  lemma {:induction false} CanonMembersSize(members: seq<Member>)
    ensures MembersSize(CanonMembers(members)) == MembersSize(members)
    decreases members, 0
  {
    if members != [] {
      CanonSize(members[0].value);
      CanonMembersSize(members[1..]);
    }
  }

  /** What JSON.parse makes of a text is a tree a value can be, and the value is v up to the order of members. */
  ghost predicate Spells(t: Text, v: Json) {
    Parse(t).Some? && WellFormed(Parse(t).value) && Same(Parse(t).value, v)
  }

  /** stableJson writes no white space, no escape that is not needed and no longer escape than is needed: of all texts
      without a lone surrogate that spell a value, its output is the shortest. */
  lemma PrintShortest(v: Json, t: Text)
    requires WellFormed(v) && Paired(t) && Spells(t, v)
    ensures |Print(v)| <= |t|
  {
    var w, p := Parse(t).value, ParseValue(t);
    ValueShortest(t, p.value, p.rest);
    CanonSize(w);
    PrintCanonical(w, v);
    PrintIsPlainCanon(w);
  }

  lemma SortedKeys(members: seq<Member>)
    requires DistinctKeys(members)
    ensures DistinctKeys(Sort(CanonMembers(members), KeyLeq))
  {
    var canon, key := CanonMembers(members), (m: Member) => m.key;
    SortMultiset(canon, KeyLeq);
    KeysStayDistinct(canon, Sort(canon, KeyLeq), key);
    var sorted := Sort(canon, KeyLeq);
    forall i, j | 0 <= i < j < |sorted|
      ensures sorted[i].key != sorted[j].key
    {
      assert key(sorted[i]) != key(sorted[j]);
    }
  }

  lemma {:induction false} CanonWellFormed(v: Json)
    requires WellFormed(v)
    ensures WellFormed(Canon(v))
  {
    match v
    case Arr(items) =>
      forall i | 0 <= i < |items| ensures WellFormed(Canon(items[i])) { CanonWellFormed(items[i]); }
    case Obj(members) =>
      var canon := CanonMembers(members);
      var sorted := Sort(canon, KeyLeq);
      forall i | 0 <= i < |canon| ensures WellFormed(canon[i].value) { CanonWellFormed(members[i].value); }
      SortedKeys(members);
      SortMultiset(canon, KeyLeq);
      forall i | 0 <= i < |sorted| ensures WellFormed(sorted[i].value) {
        assert sorted[i] in multiset(canon);
        var k :| 0 <= k < |canon| && canon[k] == sorted[i];
      }
    case _ =>
  }

  lemma PairedWrap(open: CodeUnit, inner: Text, close: CodeUnit)
    requires open < 0xD800 && close < 0xD800 && Paired(inner)
    ensures Paired([open] + inner + [close])
  {
    PlainUnits([open]);
    PlainUnits([close]);
    PairedAppend([open], inner);
    PairedAppend([open] + inner, [close]);
  }

  lemma {:induction false} PairedJoin(parts: seq<Text>)
    requires forall i :: 0 <= i < |parts| ==> Paired(parts[i])
    ensures Paired(Join(parts))
  {
    if |parts| > 1 {
      PairedJoin(parts[1..]);
      PlainUnits([COMMA]);
      PairedAppend(parts[0], [COMMA]);
      PairedAppend(parts[0] + [COMMA], Join(parts[1..]));
    }
  }

  lemma {:induction false} PlainPaired(v: Json)
    requires NumbersOk(v)
    ensures Paired(Plain(v))
  {
    match v
    case Arr(items) =>
      forall i | 0 <= i < |items| ensures Paired(PlainAll(items)[i]) { PlainPaired(items[i]); }
      PairedJoin(PlainAll(items));
      PairedWrap(OPEN_BRACKET, Join(PlainAll(items)), CLOSE_BRACKET);
    case Obj(members) =>
      forall i | 0 <= i < |members| ensures Paired(PlainMembers(members)[i]) {
        PlainPaired(members[i].value);
        QuotePaired(members[i].key);
        PlainUnits([COLON]);
        PairedAppend(Quote(members[i].key), [COLON]);
        PairedAppend(Quote(members[i].key) + [COLON], Plain(members[i].value));
      }
      PairedJoin(PlainMembers(members));
      PairedWrap(OPEN_BRACE, Join(PlainMembers(members)), CLOSE_BRACE);
    case Str(text) => QuotePaired(text);
    case _ => PlainUnits(Plain(v));
  }

  /** And it is one of those texts. */
  lemma PrintSpells(v: Json)
    requires WellFormed(v)
    ensures Paired(Print(v)) && Spells(Print(v), v)
  {
    ParsePrint(v);
    CanonWellFormed(v);
    CanonSame(v);
    CanonNumbersOk(v);
    PrintIsPlainCanon(v);
    PlainPaired(Canon(v));
  }

  /** A literal as text. */
  function Units(s: string): Text { Map(s, (c: char) => if c as int < 0x1_0000 then c as int else 0) }

  /** The words and signs of RFC 8259, spelled out. */
  lemma Spelling()
    ensures NULL_WORD == Units("null") && TRUE_WORD == Units("true") && FALSE_WORD == Units("false")
    ensures [OPEN_BRACE, CLOSE_BRACE, OPEN_BRACKET, CLOSE_BRACKET, COLON, COMMA, QUOTE, BACKSLASH, MINUS]
            == Units("{}[]:,\"\\-")
    ensures forall n :: 0 <= n < 16 ==> HexDigit(n) == Units("0123456789abcdef")[n]
    ensures forall n :: 0 <= n < 7 ==> ShortEscape([8, 9, 10, 12, 13, 34, 92][n]) == Some(Units("btnfr\"\\")[n])
  {
  }
}
