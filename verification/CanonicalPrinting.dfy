/** stableJson is a canonical printer: it can be parsed back, and it prints two trees alike exactly
    when they are equal up to member order. */
module CanonicalPrinting {
  import opened Ordering
  import opened StableJson

  /** Printing in the listed member order; Print is Plain after Canon. */
  function Plain(v: Json): Text
    decreases v, 1
  {
    match v
    case Arr(items) => [OPEN_BRACKET] + Join(PlainAll(items)) + [CLOSE_BRACKET]
    case Obj(members) => [OPEN_BRACE] + Join(PlainMembers(members)) + [CLOSE_BRACE]
    case Num(token) => token
    case Str(text) => Quote(text)
    case Bool(b) => if b then TRUE_WORD else FALSE_WORD
    case Null => NULL_WORD
  }

  function PlainAll(items: seq<Json>): (r: seq<Text>)
    ensures |r| == |items| && forall i :: 0 <= i < |r| ==> r[i] == Plain(items[i])
    decreases items, 0
  {
    if items == [] then [] else [Plain(items[0])] + PlainAll(items[1..])
  }

  function PlainMembers(members: seq<Member>): (r: seq<Text>)
    ensures |r| == |members|
    ensures forall i :: 0 <= i < |r| ==> r[i] == Quote(members[i].key) + [COLON] + Plain(members[i].value)
    decreases members, 0
  {
    if members == [] then []
    else [Quote(members[0].key) + [COLON] + Plain(members[0].value)] + PlainMembers(members[1..])
  }

  function Render(m: Member): Rendered { Rendered(m.key, Plain(m.value)) }

  lemma {:induction false} PrintIsPlainCanon(v: Json)
    ensures Print(v) == Plain(Canon(v))
    decreases v, 1
  {
    match v
    case Arr(items) => PrintAllIsPlain(items);
    case Obj(members) =>
      var sorted := Sort(CanonMembers(members), KeyLeq);
      RenderAllIsMap(members);
      SortMap(CanonMembers(members), Render, KeyLeq, RenderedLeq);
      assert Map(Map(sorted, Render), MemberText) == PlainMembers(sorted);
    case _ =>
  }

  lemma {:induction false} PrintAllIsPlain(items: seq<Json>)
    ensures PrintAll(items) == PlainAll(CanonAll(items))
    decreases items, 0
  {
    if items != [] {
      PrintIsPlainCanon(items[0]);
      PrintAllIsPlain(items[1..]);
    }
  }

  lemma {:induction false} RenderAllIsMap(members: seq<Member>)
    ensures RenderAll(members) == Map(CanonMembers(members), Render)
    decreases members, 0
  {
    if members != [] {
      PrintIsPlainCanon(members[0].value);
      RenderAllIsMap(members[1..]);
    }
  }

  /*** Parsing what was printed ***/

  /** Numbers are valid at every level: all the parser needs. */
  ghost predicate NumbersOk(v: Json) {
    match v
    case Num(token) => IsNumber(token)
    case Arr(items) => forall i :: 0 <= i < |items| ==> NumbersOk(items[i])
    case Obj(members) => forall i :: 0 <= i < |members| ==> NumbersOk(members[i].value)
    case _ => true
  }

  /** No white space or closing bracket starts a printed value, and no number runs on past it. */
  ghost predicate Starts(t: Text) { t != [] && t[0] !in {32, 9, 10, 13, CLOSE_BRACKET} }
  ghost predicate Stops(t: Text) { t == [] || !IsNumberUnit(t[0]) }

  lemma PlainStarts(v: Json)
    requires NumbersOk(v)
    ensures Starts(Plain(v))
  {
  }

  lemma ParsePlainWord(v: Json, rest: Text)
    requires v.Null? || v.Bool?
    ensures ParseValue(Plain(v) + rest) == Ok(v, rest)
  {
    var t := Plain(v) + rest;
    assert t[0] == Plain(v)[0] && SkipWs(t) == t;
    assert Plain(v) <= t && t[|Plain(v)|..] == rest;
  }

  lemma ParsePlainNumber(token: Text, rest: Text)
    requires IsNumber(token) && Stops(rest)
    ensures ParseValue(token + rest) == Ok(Num(token), rest)
  {
    var t := token + rest;
    NumberRunExact(token, rest);
    assert t[..|token|] == token && t[|token|..] == rest;
    assert t[0] == token[0] && (IsDigit(t[0]) || t[0] == MINUS);
    assert SkipWs(t) == t;
    assert ParseNumber(t) == Ok(Num(token), rest);
  }

  lemma ParsePlainString(text: Text, rest: Text)
    ensures ParseValue(Quote(text) + rest) == Ok(Str(text), rest)
  {
    var t := Quote(text) + rest;
    assert t[0] == QUOTE && SkipWs(t) == t;
    assert t[1..] == Escape(text) + ([QUOTE] + rest);
    StringRoundTrip(text, rest);
  }

  lemma ArrStep(body: Text, items: seq<Json>, rest: Text)
    requires Starts(body) && ParseItems(body) == Ok(items, rest)
    ensures ParseValue([OPEN_BRACKET] + body) == Ok(Arr(items), rest)
  {
    Cons(OPEN_BRACKET, body);
  }

  lemma ObjStep(body: Text, members: seq<Member>, rest: Text)
    requires body != [] && body[0] == QUOTE && ParseMembers(body) == Ok(members, rest)
    ensures ParseValue([OPEN_BRACE] + body) == Ok(Obj(members), rest)
  {
    Cons(OPEN_BRACE, body);
  }

  lemma EmptySteps(rest: Text)
    ensures ParseValue([OPEN_BRACKET] + ([CLOSE_BRACKET] + rest)) == Ok(Arr([]), rest)
    ensures ParseValue([OPEN_BRACE] + ([CLOSE_BRACE] + rest)) == Ok(Obj([]), rest)
  {
    var a, o := [CLOSE_BRACKET] + rest, [CLOSE_BRACE] + rest;
    assert ([OPEN_BRACKET] + a)[1..] == a && a[1..] == rest;
    assert ([OPEN_BRACE] + o)[1..] == o && o[1..] == rest;
  }

  lemma LastItem(t: Text, v: Json, rest: Text)
    requires ParseValue(t) == Ok(v, [CLOSE_BRACKET] + rest)
    ensures ParseItems(t) == Ok([v], rest)
  {
    Cons(CLOSE_BRACKET, rest);
  }

  lemma MoreItems(t: Text, v: Json, more: Text, items: seq<Json>, rest: Text)
    requires ParseValue(t) == Ok(v, [COMMA] + more) && ParseItems(more) == Ok(items, rest)
    ensures ParseItems(t) == Ok([v] + items, rest)
  {
    Cons(COMMA, more);
  }

  lemma LastMember(t: Text, m: Member, rest: Text)
    requires ParseMember(t) == Ok(m, [CLOSE_BRACE] + rest)
    ensures ParseMembers(t) == Ok([m], rest)
  {
    Cons(CLOSE_BRACE, rest);
  }

  lemma MoreMembers(t: Text, m: Member, more: Text, members: seq<Member>, rest: Text)
    requires ParseMember(t) == Ok(m, [COMMA] + more) && ParseMembers(more) == Ok(members, rest)
    ensures ParseMembers(t) == Ok([m] + members, rest)
  {
    Cons(COMMA, more);
  }

  lemma QuotedHead(key: Text, after: Text)
    ensures (Quote(key) + after)[0] == QUOTE
    ensures (Quote(key) + after)[1..] == Escape(key) + ([QUOTE] + after)
  {
  }

  lemma MemberStep(key: Text, value: Text, v: Json, rest: Text)
    requires ParseValue(value) == Ok(v, rest)
    ensures ParseMember(Quote(key) + ([COLON] + value)) == Ok(Member(key, v), rest)
  {
    QuotedHead(key, [COLON] + value);
    StringRoundTrip(key, [COLON] + value);
    Cons(COLON, value);
  }

  lemma {:induction false} ParsePlain(v: Json, rest: Text)
    requires NumbersOk(v) && Stops(rest)
    ensures ParseValue(Plain(v) + rest) == Ok(v, rest)
    decreases v, 1
  {
    match v
    case Arr(items) =>
      Wrap(OPEN_BRACKET, Join(PlainAll(items)), CLOSE_BRACKET, rest);
      if items == [] {
        EmptySteps(rest);
      } else {
        ParsePlainItems(items, rest);
        JoinStarts(items, [CLOSE_BRACKET] + rest);
        ArrStep(Join(PlainAll(items)) + ([CLOSE_BRACKET] + rest), items, rest);
      }
    case Obj(members) =>
      Wrap(OPEN_BRACE, Join(PlainMembers(members)), CLOSE_BRACE, rest);
      if members == [] {
        EmptySteps(rest);
      } else {
        ParsePlainMembers(members, rest);
        ObjStep(Join(PlainMembers(members)) + ([CLOSE_BRACE] + rest), members, rest);
      }
    case Num(token) => ParsePlainNumber(token, rest);
    case Str(text) => ParsePlainString(text, rest);
    case _ => ParsePlainWord(v, rest);
  }

  lemma Wrap(open: CodeUnit, inner: Text, close: CodeUnit, rest: Text)
    ensures [open] + inner + [close] + rest == [open] + (inner + ([close] + rest))
    ensures [] + ([close] + rest) == [close] + rest
  {
  }

  lemma JoinStarts(items: seq<Json>, tail: Text)
    requires items != [] && forall i :: 0 <= i < |items| ==> NumbersOk(items[i])
    ensures Starts(Join(PlainAll(items)) + tail)
  {
    PlainStarts(items[0]);
    FirstPart(PlainAll(items), tail);
  }

  lemma FirstPart(parts: seq<Text>, tail: Text)
    requires parts != [] && Starts(parts[0])
    ensures Starts(Join(parts) + tail)
  {
    assert (Join(parts) + tail)[0] == parts[0][0];
  }

  lemma JoinCons(parts: seq<Text>, tail: Text)
    requires |parts| > 1
    ensures Join(parts) + tail == parts[0] + ([COMMA] + (Join(parts[1..]) + tail))
  {
  }

  lemma {:induction false} ParsePlainItems(items: seq<Json>, rest: Text)
    requires items != [] && forall i :: 0 <= i < |items| ==> NumbersOk(items[i])
    ensures ParseItems(Join(PlainAll(items)) + ([CLOSE_BRACKET] + rest)) == Ok(items, rest)
    decreases items, 0
  {
    var tail := [CLOSE_BRACKET] + rest;
    var v := items[0];
    if |items| == 1 {
      ParsePlain(v, tail);
      LastItem(Plain(v) + tail, v, rest);
      assert items == [v];
    } else {
      var others := items[1..];
      assert items == [v] + others;
      var more := Join(PlainAll(others)) + tail;
      ParsePlain(v, [COMMA] + more);
      ParsePlainItems(others, rest);
      MoreItems(Plain(v) + ([COMMA] + more), v, more, others, rest);
      JoinCons(PlainAll(items), tail);
    }
  }

  lemma Regroup(a: Text, b: Text, c: Text, d: Text)
    ensures a + b + c + d == a + (b + (c + d))
  {
  }

  lemma PlainMemberStep(m: Member, next: Text)
    requires ParseValue(Plain(m.value) + next) == Ok(m.value, next)
    ensures ParseMember(Quote(m.key) + [COLON] + Plain(m.value) + next) == Ok(m, next)
  {
    MemberStep(m.key, Plain(m.value) + next, m.value, next);
    Regroup(Quote(m.key), [COLON], Plain(m.value), next);
  }

  lemma {:induction false} ParsePlainMembers(members: seq<Member>, rest: Text)
    requires members != [] && forall i :: 0 <= i < |members| ==> NumbersOk(members[i].value)
    ensures ParseMembers(Join(PlainMembers(members)) + ([CLOSE_BRACE] + rest)) == Ok(members, rest)
    decreases members, 0
  {
    var tail := [CLOSE_BRACE] + rest;
    var m := members[0];
    var head := PlainMembers(members)[0];
    if |members| == 1 {
      ParsePlain(m.value, tail);
      PlainMemberStep(m, tail);
      LastMember(head + tail, m, rest);
      assert members == [m];
    } else {
      var others := members[1..];
      assert members == [m] + others;
      var more := Join(PlainMembers(others)) + tail;
      ParsePlain(m.value, [COMMA] + more);
      PlainMemberStep(m, [COMMA] + more);
      ParsePlainMembers(others, rest);
      MoreMembers(head + ([COMMA] + more), m, more, others, rest);
      JoinCons(PlainMembers(members), tail);
    }
  }

  lemma {:induction false} CanonNumbersOk(v: Json)
    requires WellFormed(v)
    ensures NumbersOk(Canon(v))
  {
    match v
    case Arr(items) =>
      forall i | 0 <= i < |items| ensures NumbersOk(Canon(items[i])) { CanonNumbersOk(items[i]); }
    case Obj(members) =>
      var canon := CanonMembers(members);
      forall i | 0 <= i < |members| ensures NumbersOk(canon[i].value) { CanonNumbersOk(members[i].value); }
      SortMultiset(canon, KeyLeq);
      var sorted := Sort(canon, KeyLeq);
      forall i | 0 <= i < |sorted| ensures NumbersOk(sorted[i].value) {
        assert sorted[i] in canon;
      }
    case _ =>
  }

  /** Parsing what stableJson printed gives the tree back, with every object in key order. */
  lemma ParsePrint(v: Json)
    requires WellFormed(v)
    ensures Parse(Print(v)) == Some(Canon(v))
  {
    CanonNumbersOk(v);
    PrintIsPlainCanon(v);
    ParsePlain(Canon(v), []);
    assert Print(v) + [] == Print(v);
  }

  /** Every stored column survives being written by stableJson and read by parseJsonField. */
  lemma ColumnRoundTrip(v: Json, fallback: Json)
    requires WellFormed(v)
    ensures ParseJsonField(Some(Print(v)), fallback) == Canon(v)
    ensures Same(ParseJsonField(Some(Print(v)), fallback), v)
  {
    ParsePrint(v);
    CanonNumbersOk(v);
    PrintIsPlainCanon(v);
    PlainStarts(Canon(v));
    CanonSame(v);
  }

  /*** Canon picks one representative of each Same class ***/

  lemma {:induction false} CanonSame(v: Json)
    requires WellFormed(v)
    ensures Same(Canon(v), v)
  {
    match v
    case Arr(items) =>
      forall i | 0 <= i < |items| ensures Same(Canon(items[i]), items[i]) { CanonSame(items[i]); }
    case Obj(members) =>
      var canon := CanonMembers(members);
      var sorted := Sort(canon, KeyLeq);
      SortMultiset(canon, KeyLeq);
      forall i | 0 <= i < |sorted| ensures SameIn(sorted[i], members) {
        assert sorted[i] in canon;
        var j :| 0 <= j < |canon| && canon[j] == sorted[i];
        CanonSame(members[j].value);
      }
    case _ =>
  }

  lemma MembersSorted(a: seq<Member>, b: seq<Member>)
    requires DistinctKeys(a) && DistinctKeys(b)
    ensures Sort(CanonMembers(a), KeyLeq) == Sort(CanonMembers(b), KeyLeq)
            <==> multiset(CanonMembers(a)) == multiset(CanonMembers(b))
  {
    KeyPreorder();
    KeyAntisymmetric(CanonMembers(a));
    SortCanonical(CanonMembers(a), CanonMembers(b), KeyLeq);
  }

  lemma {:induction false} SameCanon(v: Json, w: Json)
    requires WellFormed(v) && WellFormed(w)
    ensures Same(v, w) <==> Canon(v) == Canon(w)
    decreases v, 1
  {
    match (v, w)
    case (Arr(a), Arr(b)) =>
      if |a| == |b| {
        forall i | 0 <= i < |a| ensures Same(a[i], b[i]) <==> Canon(a[i]) == Canon(b[i]) {
          SameCanon(a[i], b[i]);
        }
        CanonAllEqual(a, b);
      } else {
        assert |CanonAll(a)| != |CanonAll(b)|;
      }
    case (Obj(a), Obj(b)) =>
      forall i | 0 <= i < |a| ensures SameIn(a[i], b) <==> Has(CanonMembers(b), CanonMembers(a)[i]) {
        SameInCanon(a[i], b);
      }
      AllInside(a, b);
      SameObj(a, b);
    case _ =>
  }

  lemma CanonAllEqual(a: seq<Json>, b: seq<Json>)
    requires |a| == |b|
    ensures CanonAll(a) == CanonAll(b) <==> forall i :: 0 <= i < |a| ==> Canon(a[i]) == Canon(b[i])
  {
    if CanonAll(a) == CanonAll(b) {
      forall i | 0 <= i < |a| ensures Canon(a[i]) == Canon(b[i]) {
        assert CanonAll(a)[i] == CanonAll(b)[i];
      }
    }
  }

  predicate Has(y: seq<Member>, m: Member) { m in y }

  ghost predicate Inside(x: seq<Member>, y: seq<Member>) {
    forall i {:trigger Has(y, x[i])} :: 0 <= i < |x| ==> Has(y, x[i])
  }

  ghost predicate AllIn(a: seq<Member>, b: seq<Member>) {
    forall i :: 0 <= i < |a| ==> SameIn(a[i], b)
  }

  lemma AllInside(a: seq<Member>, b: seq<Member>)
    requires forall i :: 0 <= i < |a| ==> (SameIn(a[i], b) <==> Has(CanonMembers(b), CanonMembers(a)[i]))
    ensures AllIn(a, b) <==> Inside(CanonMembers(a), CanonMembers(b))
  {
  }

  lemma SameObj(a: seq<Member>, b: seq<Member>)
    requires DistinctKeys(a) && DistinctKeys(b)
    ensures |a| == |b| && Inside(CanonMembers(a), CanonMembers(b))
            <==> Sort(CanonMembers(a), KeyLeq) == Sort(CanonMembers(b), KeyLeq)
  {
    MembersSorted(a, b);
    Permutation(CanonMembers(a), CanonMembers(b));
  }

  lemma {:induction false} SameInCanon(m: Member, b: seq<Member>)
    requires WellFormed(m.value) && forall j :: 0 <= j < |b| ==> WellFormed(b[j].value)
    ensures SameIn(m, b) <==> Member(m.key, Canon(m.value)) in CanonMembers(b)
    decreases m, 0
  {
    forall j | 0 <= j < |b| ensures Same(m.value, b[j].value) <==> Canon(m.value) == Canon(b[j].value) {
      SameCanon(m.value, b[j].value);
    }
    var c := Member(m.key, Canon(m.value));
    if c in CanonMembers(b) {
      var j :| 0 <= j < |b| && CanonMembers(b)[j] == c;
    }
    if SameIn(m, b) {
      var j :| 0 <= j < |b| && m.key == b[j].key && Same(m.value, b[j].value);
      assert CanonMembers(b)[j] == c;
    }
  }

  /** For duplicate-free member lists, being permutations is inclusion at equal length. */
  lemma Permutation(x: seq<Member>, y: seq<Member>)
    requires DistinctKeys(x)
    ensures multiset(x) == multiset(y) <==> |x| == |y| && Inside(x, y)
  {
    if multiset(x) == multiset(y) {
      assert |multiset(x)| == |x| && |multiset(y)| == |y|;
      forall i | 0 <= i < |x| ensures Has(y, x[i]) { assert x[i] in multiset(y); }
    } else if |x| == |y| && Inside(x, y) {
      forall i | 0 <= i < |x| ensures x[i] in y { assert Has(y, x[i]); }
      DistinctPermutation(x, y);
    }
  }

  /** Two trees print alike exactly when they are equal up to member order. */
  lemma PrintCanonical(v: Json, w: Json)
    requires WellFormed(v) && WellFormed(w)
    ensures Print(v) == Print(w) <==> Same(v, w)
  {
    SameCanon(v, w);
    PrintIsPlainCanon(v);
    PrintIsPlainCanon(w);
    ParsePrint(v);
    ParsePrint(w);
  }
}
