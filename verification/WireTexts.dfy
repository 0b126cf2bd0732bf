/** The exact texts behind cursors and manifest ids (src/event-plane.js, src/event-journal.js, src/correspondence.js,
    src/agent-bootstrap.js): field names, order and punctuation. */
module WireTexts {
  import opened Ordering
  import opened StableJson
  import opened CanonicalPrinting
  import opened ShortestPrinting
  import C = Cursors
  import A = AuthorityManifest

  type Text = StableJson.Text

  lemma {:induction false} LeqAfter(p: Text, a: Text, b: Text)
    ensures TextLeq(p + a, p + b) <==> TextLeq(a, b)
  {
    if p == [] {
      assert p + a == a && p + b == b;
    } else {
      assert p + a == [p[0]] + (p[1..] + a) && p + b == [p[0]] + (p[1..] + b);
      LeqAfter(p[1..], a, b);
    }
  }

  lemma KeyOrder()
    ensures TextLeq(Units("chain"), Units("chain_head"))
    ensures TextLeq(Units("chain_head"), Units("path_head_count"))
    ensures TextLeq(Units("path_head_count"), Units("path_heads_digest"))
    ensures TextLeq(Units("path_heads_digest"), Units("schema"))
    ensures TextLeq(Units("path"), Units("stone_hash")) && TextLeq(Units("created_at"), Units("id"))
  {
    LeqAfter(Units("chain"), [], Units("_head"));
    assert Units("chain") == Units("chain") + [] && Units("chain_head") == Units("chain") + Units("_head");
    LeqAfter(Units("path_head"), Units("_count"), Units("s_digest"));
    assert Units("path_head_count") == Units("path_head") + Units("_count");
    assert Units("path_heads_digest") == Units("path_head") + Units("s_digest");
  }

  ghost predicate Scalar(v: Json) { !v.Arr? && !v.Obj? }

  ghost predicate Flat(members: seq<Member>) { forall i :: 0 <= i < |members| ==> Scalar(members[i].value) }

  lemma FlatCanon(members: seq<Member>)
    requires Flat(members)
    ensures CanonMembers(members) == members
  {
    forall i | 0 <= i < |members| ensures CanonMembers(members)[i] == members[i] { assert Scalar(members[i].value); }
  }

  /** An object of scalars is printed in the order of its keys. */
  lemma PrintInOrder(listed: seq<Member>, sorted: seq<Member>)
    requires Flat(listed) && DistinctKeys(listed) && multiset(listed) == multiset(sorted) && Sorted(sorted, KeyLeq)
    ensures Print(Obj(listed)) == Plain(Obj(sorted))
  {
    FlatCanon(listed);
    KeyPreorder();
    KeyAntisymmetric(listed);
    SortCanonical(listed, sorted, KeyLeq);
    SortOfSorted(sorted, KeyLeq);
    PrintIsPlainCanon(Obj(listed));
  }

  lemma {:induction false} PlainText(t: Text)
    requires forall i :: 0 <= i < |t| ==> 48 <= t[i] < 123 && t[i] != BACKSLASH
    ensures Escape(t) == t
  {
    if t != [] {
      PlainText(t[1..]);
      assert EscapeUnit(t[0]) == [t[0]] && t == [t[0]] + t[1..];
    }
  }

  /** A field: its name, and its value's tree. */
  datatype Field = Field(name: string, value: Json)

  /** One field as it is written. */
  function Written(f: Field): Text { Units("\"") + Units(f.name) + Units("\":") + Plain(f.value) }

  /** The fields in braces, with commas between them. */
  function Braced(fields: seq<Field>): Text { Units("{") + Join(Map(fields, Written)) + Units("}") }

  function MemberOf(f: Field): Member { Member(Units(f.name), f.value) }

  predicate NameLike(name: string) {
    forall i :: 0 <= i < |name| ==> 48 <= name[i] as int < 123 && name[i] as int != BACKSLASH
  }

  lemma FieldText(f: Field)
    requires NameLike(f.name)
    ensures Quote(Units(f.name)) + [COLON] + Plain(f.value) == Written(f)
  {
    PlainText(Units(f.name));
    var q, name, v := [QUOTE], Units(f.name), Plain(f.value);
    assert Units("\"") == [QUOTE] && Units("\":") == [QUOTE] + [COLON];
    assert q + name + q + [COLON] == q + name + (q + [COLON]);
  }

  predicate AllNames(fields: seq<Field>) { forall i :: 0 <= i < |fields| ==> NameLike(fields[i].name) }

  lemma FieldsText(fields: seq<Field>)
    requires AllNames(fields)
    ensures Plain(Obj(Map(fields, MemberOf))) == Braced(fields)
  {
    forall i | 0 <= i < |fields| ensures PlainMembers(Map(fields, MemberOf))[i] == Written(fields[i]) {
      FieldText(fields[i]);
    }
    assert PlainMembers(Map(fields, MemberOf)) == Map(fields, Written);
    assert Units("{") == [OPEN_BRACE] && Units("}") == [CLOSE_BRACE];
  }

  /** Printing an object of such fields, however they are listed. */
  lemma PrintFields(listed: seq<Member>, fields: seq<Field>)
    requires Flat(listed) && DistinctKeys(listed) && AllNames(fields)
    requires multiset(listed) == multiset(Map(fields, MemberOf)) && Sorted(Map(fields, MemberOf), KeyLeq)
    ensures Print(Obj(listed)) == Braced(fields)
  {
    PrintInOrder(listed, Map(fields, MemberOf));
    FieldsText(fields);
  }

  lemma CursorNames()
    ensures C.OCCURRED_AT == Units("occurred_at") && C.EVENT_ID == Units("event_id")
    ensures C.CREATED_AT == Units("created_at") && C.ID == Units("id") && C.CURSOR_PREFIX == Units("ej1.")
  {
  }

  lemma TwoFields(members: seq<Member>, fields: seq<Field>)
    requires |fields| == 2 && members == [MemberOf(fields[0]), MemberOf(fields[1])] && AllNames(fields)
    requires |fields[0].name| != |fields[1].name| && TextLeq(Units(fields[0].name), Units(fields[1].name))
    requires Scalar(fields[0].value) && Scalar(fields[1].value)
    ensures Print(Obj(members)) == Braced(fields)
  {
    assert Map(fields, MemberOf) == members && |members[0].key| != |members[1].key|;
    PrintFields(members, fields);
  }

  function EventFields(p: C.Pair): seq<Field> { [Field("occurred_at", Str(p.at)), Field("event_id", Str(p.id))] }
  function MailboxFields(p: C.Pair): seq<Field> { [Field("created_at", Str(p.at)), Field("id", Str(p.id))] }

  lemma EventText(p: C.Pair)
    ensures C.EventJson(p) == Braced(EventFields(p))
  {
    CursorNames();
    FieldsText(EventFields(p));
    assert Map(EventFields(p), MemberOf)
        == [Member(Units("occurred_at"), Str(p.at)), Member(Units("event_id"), Str(p.id))];
  }

  lemma MailboxText(p: C.Pair)
    ensures C.MailboxJson(p) == Braced(MailboxFields(p))
  {
    var members := Map(MailboxFields(p), MemberOf);
    CursorNames();
    KeyOrder();
    assert members == [Member(Units("created_at"), Str(p.at)), Member(Units("id"), Str(p.id))];
    TwoFields(members, MailboxFields(p));
  }

  /** What each cursor wraps: the event cursors an object of occurred_at and event_id in that order, one behind ej1. and
      one bare, the mailbox cursor one of created_at and id. */
  lemma CursorTexts(p: C.Pair)
    ensures C.EncodeJournalCursor(p)
            == C.Wrap(Braced([Field("occurred_at", Str(p.at)), Field("event_id", Str(p.id))]))
    ensures p.at != [] && p.id != [] ==> C.EncodeEventCursor(p) == Some(Units("ej1.") + C.EncodeJournalCursor(p))
    ensures C.BuildMailboxCursor(p) == C.Wrap(Braced([Field("created_at", Str(p.at)), Field("id", Str(p.id))]))
  {
    CursorNames();
    EventText(p);
    MailboxText(p);
  }

  /** A decimal numeral read back. */
  function NumeralValue(t: Text): int {
    if t == [] then 0 else NumeralValue(t[..|t| - 1]) * 10 + (t[|t| - 1] as int - 48)
  }

  lemma {:induction false} DecimalValue(n: nat)
    ensures NumeralValue(A.Decimal(n)) == n
  {
    if n < 10 {
      assert A.Decimal(n)[..0] == [];
    } else {
      DecimalValue(n / 10);
      var t := A.Decimal(n);
      assert t[..|t| - 1] == A.Decimal(n / 10);
    }
  }

  /*** The texts behind a manifest id ***/

  lemma ManifestNames()
    ensures A.Ascii("path") == Units("path") && A.Ascii("stone_hash") == Units("stone_hash")
    ensures A.Ascii("schema") == Units("schema") && A.Ascii("chain") == Units("chain")
    ensures A.Ascii("chain_head") == Units("chain_head") && A.Ascii("path_head_count") == Units("path_head_count")
    ensures A.Ascii("path_heads_digest") == Units("path_heads_digest")
    ensures A.Ascii("cairnstone-sparse-authority-v1") == Units("cairnstone-sparse-authority-v1")
  {
  }

  /** The five fields, in the order of their names. */
  function PayloadFields(chain: Text, head: Text, count: nat, digest: Text): seq<Field> {
    [Field("chain", Str(chain)), Field("chain_head", Str(head)), Field("path_head_count", Num(A.Decimal(count))),
     Field("path_heads_digest", Str(digest)), Field("schema", Str(Units("cairnstone-sparse-authority-v1")))]
  }

  lemma {:induction false} ChainSorted(members: seq<Member>)
    requires forall i :: 0 <= i < |members| - 1 ==> KeyLeq(members[i], members[i + 1])
    ensures Sorted(members, KeyLeq)
  {
    if |members| > 1 {
      ChainSorted(members[1..]);
      KeyPreorder();
      forall j | 0 < j < |members| ensures KeyLeq(members[0], members[j]) {
        assert members[1..][j - 1] == members[j] && members[1..][0] == members[1];
        assert j > 1 ==> KeyLeq(members[1..][0], members[1..][j - 1]);
      }
      forall i, j | 0 <= i < j < |members| ensures KeyLeq(members[i], members[j]) {
        if i > 0 { assert KeyLeq(members[1..][i - 1], members[1..][j - 1]); }
      }
    }
  }

  lemma PayloadSorted(chain: Text, head: Text, count: nat, digest: Text)
    ensures Sorted(Map(PayloadFields(chain, head, count, digest), MemberOf), KeyLeq)
  {
    KeyOrder();
    ChainSorted(Map(PayloadFields(chain, head, count, digest), MemberOf));
  }

  lemma PayloadNames(chain: Text, head: Text, count: nat, digest: Text)
    ensures AllNames(PayloadFields(chain, head, count, digest))
  {
  }

  /** The payload lists its last field first. */
  lemma PayloadListed(chain: Text, head: Text, count: nat, digest: Text)
    ensures var f := PayloadFields(chain, head, count, digest);
      A.Payload(chain, head, count, digest).members == [MemberOf(f[4])] + Map(f[..4], MemberOf)
  {
    ManifestNames();
    var f := PayloadFields(chain, head, count, digest);
    var front := Map(f[..4], MemberOf);
    assert front == [MemberOf(f[0]), MemberOf(f[1]), MemberOf(f[2]), MemberOf(f[3])];
  }

  lemma LastFirst(fields: seq<Field>, listed: seq<Member>)
    requires |fields| == 5 && listed == [MemberOf(fields[4])] + Map(fields[..4], MemberOf)
    requires forall i :: 0 <= i < 5 ==> Scalar(fields[i].value)
    ensures Flat(listed) && multiset(listed) == multiset(Map(fields, MemberOf))
  {
    var front := Map(fields[..4], MemberOf);
    assert Map(fields, MemberOf) == front + [MemberOf(fields[4])];
  }

  /** The text whose digest is the manifest's id. */
  lemma PayloadText(chain: Text, head: Text, count: nat, digest: Text)
    ensures Print(A.Payload(chain, head, count, digest)) == Braced(PayloadFields(chain, head, count, digest))
  {
    var fields, payload := PayloadFields(chain, head, count, digest), A.Payload(chain, head, count, digest);
    PayloadListed(chain, head, count, digest);
    LastFirst(fields, payload.members);
    A.PayloadKeys(chain, head, count, digest);
    PayloadNames(chain, head, count, digest);
    PayloadSorted(chain, head, count, digest);
    PrintFields(payload.members, fields);
  }

  function PointerFields(p: A.Pointer): seq<Field> { [Field("path", Str(p.path)), Field("stone_hash", Str(p.hash))] }

  lemma PointerText(p: A.Pointer)
    ensures Print(A.PointerJson(p)) == Braced(PointerFields(p))
  {
    var members := Map(PointerFields(p), MemberOf);
    ManifestNames();
    KeyOrder();
    assert members == [Member(Units("path"), Str(p.path)), Member(Units("stone_hash"), Str(p.hash))];
    TwoFields(members, PointerFields(p));
  }

  lemma {:induction false} PrintItems(items: seq<Json>)
    ensures |PrintAll(items)| == |items| && forall i :: 0 <= i < |items| ==> PrintAll(items)[i] == Print(items[i])
  {
    if items != [] { PrintItems(items[1..]); }
  }

  /** The text whose digest is the path heads' digest: the pointers in pointer order, each with its path and hash. */
  lemma PointersText(pointers: seq<A.Pointer>)
    ensures Print(A.PointersJson(pointers))
            == Units("[") + Join(Map(pointers, (p: A.Pointer) => Braced(PointerFields(p)))) + Units("]")
  {
    var one, items := (p: A.Pointer) => Braced(PointerFields(p)), Map(pointers, A.PointerJson);
    forall i | 0 <= i < |pointers| ensures Print(items[i]) == one(pointers[i]) { PointerText(pointers[i]); }
    PrintItems(items);
    assert PrintAll(items) == Map(pointers, one);
    assert Units("[") == [OPEN_BRACKET] && Units("]") == [CLOSE_BRACKET];
  }
}
