/** The three cursors (src/event-journal.js, src/event-plane.js, src/correspondence.js): a JSON object of a time and an
    id, as UTF-8, as URL base64. Each decodes to the pair it was built from. */
module Cursors {
  import opened Ordering
  import opened StableJson
  import opened CanonicalPrinting
  import opened Utf8
  import B = Base64Url

  type Text = StableJson.Text

  datatype Pair = Pair(at: Text, id: Text)
  datatype Decoded = Good(pair: Pair) | Absent | Invalid

  const OCCURRED_AT: Text := [111, 99, 99, 117, 114, 114, 101, 100, 95, 97, 116]
  const EVENT_ID: Text := [101, 118, 101, 110, 116, 95, 105, 100]
  const CREATED_AT: Text := [99, 114, 101, 97, 116, 101, 100, 95, 97, 116]
  const ID: Text := [105, 100]
  /** ej1. */
  const CURSOR_PREFIX: Text := [101, 106, 49, 46]

  function Object(k1: Text, v1: Json, k2: Text, v2: Text): Json { Obj([Member(k1, v1), Member(k2, Str(v2))]) }

  /** JSON.stringify keeps the order in which the two fields were written. */
  function EventJson(p: Pair): Text { Plain(Object(OCCURRED_AT, Str(p.at), EVENT_ID, p.id)) }
  /** stableJson puts them in key order. */
  function MailboxJson(p: Pair): Text { Print(Object(CREATED_AT, Str(p.at), ID, p.id)) }

  function Wrap(json: Text): Text { B.ToUrl(Encode(json)) }

  function Unwrap(url: Text, pad: nat -> nat): Option<Json> {
    match B.FromUrl(url, pad)
    case None => None
    case Some(bytes) => match Decode(bytes) case None => None case Some(text) => Parse(text)
  }

  /** The text of a field: the last member with the key, when it is a string. */
  function FieldOf(members: seq<Member>, key: Text): Option<Text> {
    if members == [] then None
    else
      var m := members[|members| - 1];
      if m.key == key then (if m.value.Str? then Some(m.value.text) else None)
      else FieldOf(members[..|members| - 1], key)
  }

  function Field(v: Json, key: Text): Option<Text> { if v.Obj? then FieldOf(v.members, key) else None }

  function EncodeJournalCursor(p: Pair): Text { Wrap(EventJson(p)) }

  /** The event plane encodes the projected event, whose occurred_at is null when it is empty. */
  function EncodeProjectedCursor(p: Pair): Text {
    if p.at == [] then Wrap(Plain(Object(OCCURRED_AT, Null, EVENT_ID, p.id))) else EncodeJournalCursor(p)
  }

  /** decodeJournalCursor: empty is no cursor; any two strings are accepted. */
  function DecodeJournalCursor(cursor: Text): Decoded {
    if cursor == [] then Absent
    else
      match Unwrap(cursor, B.PlanePad)
      case None => Invalid
      case Some(v) =>
        match (Field(v, OCCURRED_AT), Field(v, EVENT_ID))
        case (Some(at), Some(id)) => Good(Pair(at, id))
        case _ => Invalid
  }

  function EncodeEventCursor(p: Pair): Option<Text> {
    if p.at == [] || p.id == [] then None else Some(CURSOR_PREFIX + Wrap(EventJson(p)))
  }

  /** decodeEventCursor: normalize is normalizeIso, clean is cleanOptionalString less its null. */
  function DecodeEventCursor(cursor: Text, normalize: Text -> Option<Text>, clean: Text -> Option<Text>): Decoded {
    if !(CURSOR_PREFIX <= cursor) then Invalid
    else
      match Unwrap(cursor[|CURSOR_PREFIX|..], B.JournalPad)
      case None => Invalid
      case Some(v) =>
        match (Field(v, OCCURRED_AT), Field(v, EVENT_ID))
        case (Some(at), Some(id)) =>
          (match (normalize(at), clean(id))
           case (Some(at'), Some(id')) => Good(Pair(at', id'))
           case _ => Invalid)
        case _ => Invalid
  }

  function BuildMailboxCursor(p: Pair): Text { Wrap(MailboxJson(p)) }

  /** parseMailboxCursor: dated is whether Date.parse gives a finite time. */
  function ParseMailboxCursor(cursor: Text, dated: Text -> bool): Decoded {
    if cursor == [] then Absent
    else
      match Unwrap(cursor, B.MailboxPad)
      case None => Invalid
      case Some(v) =>
        match (Field(v, CREATED_AT), Field(v, ID))
        case (Some(at), Some(id)) => if dated(at) && id != [] then Good(Pair(at, id)) else Invalid
        case _ => Invalid
  }

  /*** Round trips ***/

  lemma MemberPaired(key: Text, value: Json)
    requires value.Str? || value.Null?
    ensures Paired(Quote(key) + [COLON] + Plain(value))
  {
    QuotePaired(key);
    if value.Str? { QuotePaired(value.text); } else { PlainUnits(NULL_WORD); }
    PlainUnits([COLON]);
    PairedAppend(Quote(key), [COLON]);
    PairedAppend(Quote(key) + [COLON], Plain(value));
  }

  lemma ObjectText(k1: Text, v1: Json, k2: Text, v2: Text)
    ensures Plain(Object(k1, v1, k2, v2))
            == [OPEN_BRACE] + (Quote(k1) + [COLON] + Plain(v1) + [COMMA] + (Quote(k2) + [COLON] + Quote(v2)))
              + [CLOSE_BRACE]
  {
    var members := Object(k1, v1, k2, v2).members;
    var parts := PlainMembers(members);
    assert parts == [parts[0], parts[1]] && parts[1..] == [parts[1]];
    assert Join(parts) == parts[0] + [COMMA] + Join([parts[1]]);
  }

  lemma ObjectPaired(k1: Text, v1: Json, k2: Text, v2: Text)
    requires v1.Str? || v1.Null?
    ensures Paired(Plain(Object(k1, v1, k2, v2)))
  {
    var a, b := Quote(k1) + [COLON] + Plain(v1), Quote(k2) + [COLON] + Quote(v2);
    ObjectText(k1, v1, k2, v2);
    MemberPaired(k1, v1);
    MemberPaired(k2, Str(v2));
    PlainUnits([COMMA]);
    PlainUnits([OPEN_BRACE]);
    PlainUnits([CLOSE_BRACE]);
    PairedAppend(a, [COMMA]);
    PairedAppend(a + [COMMA], b);
    PairedAppend([OPEN_BRACE], a + [COMMA] + b);
    PairedAppend([OPEN_BRACE] + (a + [COMMA] + b), [CLOSE_BRACE]);
  }

  lemma ObjectParses(k1: Text, v1: Json, k2: Text, v2: Text)
    requires v1.Str? || v1.Null?
    ensures Parse(Plain(Object(k1, v1, k2, v2))) == Some(Object(k1, v1, k2, v2))
  {
    var v := Object(k1, v1, k2, v2);
    ParsePlain(v, []);
    assert Plain(v) + [] == Plain(v);
  }

  lemma ObjectFields(k1: Text, v1: Json, k2: Text, v2: Text)
    requires k1 != k2
    ensures Field(Object(k1, v1, k2, v2), k1) == (if v1.Str? then Some(v1.text) else None)
    ensures Field(Object(k1, v1, k2, v2), k2) == Some(v2)
  {
    var members := Object(k1, v1, k2, v2).members;
    assert members[..1] == [members[0]];
    assert FieldOf([members[0]], k1) == if v1.Str? then Some(v1.text) else None;
  }

  /** Wrapping and unwrapping an object of two strings, with any of the padding formulas. */
  lemma WrapRoundTrip(k1: Text, v1: Json, k2: Text, v2: Text, json: Text)
    requires v1.Str? || v1.Null?
    requires json == Plain(Object(k1, v1, k2, v2))
    ensures Unwrap(Wrap(json), B.JournalPad) == Unwrap(Wrap(json), B.PlanePad) == Unwrap(Wrap(json), B.MailboxPad)
            == Some(Object(k1, v1, k2, v2))
    ensures Wrap(json) != []
  {
    ObjectPaired(k1, v1, k2, v2);
    ObjectText(k1, v1, k2, v2);
    RoundTrip(json);
    ObjectParses(k1, v1, k2, v2);
    B.UrlRoundTrip(Encode(json));
    B.UrlForm(Encode(json));
    assert Encode(json) != [];
  }

  /** The event plane's cursor decodes to its pair, for every two strings. */
  lemma JournalCursorRoundTrip(p: Pair)
    ensures DecodeJournalCursor(EncodeJournalCursor(p)) == Good(p)
  {
    assert |OCCURRED_AT| != |EVENT_ID|;
    WrapRoundTrip(OCCURRED_AT, Str(p.at), EVENT_ID, p.id, EventJson(p));
    ObjectFields(OCCURRED_AT, Str(p.at), EVENT_ID, p.id);
  }

  /** As the event plane hands it out, the cursor is good exactly when the time is not empty. */
  lemma ProjectedCursorRoundTrip(p: Pair)
    ensures DecodeJournalCursor(EncodeProjectedCursor(p)) == if p.at == [] then Invalid else Good(p)
  {
    if p.at == [] {
      assert |OCCURRED_AT| != |EVENT_ID|;
      WrapRoundTrip(OCCURRED_AT, Null, EVENT_ID, p.id, Plain(Object(OCCURRED_AT, Null, EVENT_ID, p.id)));
      ObjectFields(OCCURRED_AT, Null, EVENT_ID, p.id);
    } else {
      JournalCursorRoundTrip(p);
    }
  }

  /** The journal's cursor exists exactly for two non-empty strings; it decodes to its pair exactly when both fields
      are already in normal form, and otherwise to their normal forms or not at all. */
  lemma EventCursorRoundTrip(p: Pair, normalize: Text -> Option<Text>, clean: Text -> Option<Text>)
    ensures EncodeEventCursor(p).Some? <==> p.at != [] && p.id != []
    ensures EncodeEventCursor(p).Some? ==>
              var back := DecodeEventCursor(EncodeEventCursor(p).value, normalize, clean);
              && (back == Good(p) <==> normalize(p.at) == Some(p.at) && clean(p.id) == Some(p.id))
              && (back.Good? <==> normalize(p.at).Some? && clean(p.id).Some?)
              && (back.Good? ==> back.pair == Pair(normalize(p.at).value, clean(p.id).value))
  {
    assert |OCCURRED_AT| != |EVENT_ID|;
    WrapRoundTrip(OCCURRED_AT, Str(p.at), EVENT_ID, p.id, EventJson(p));
    ObjectFields(OCCURRED_AT, Str(p.at), EVENT_ID, p.id);
    var url := Wrap(EventJson(p));
    assert CURSOR_PREFIX <= CURSOR_PREFIX + url && (CURSOR_PREFIX + url)[|CURSOR_PREFIX|..] == url;
  }

  lemma MailboxOrder(p: Pair)
    ensures MailboxJson(p) == Plain(Object(CREATED_AT, Str(p.at), ID, p.id))
  {
    var v := Object(CREATED_AT, Str(p.at), ID, p.id);
    PrintIsPlainCanon(v);
    assert CREATED_AT[0] < ID[0];
    assert CanonMembers(v.members) == v.members;
    assert Sorted(v.members, KeyLeq);
    SortOfSorted(v.members, KeyLeq);
  }

  /** The mailbox cursor decodes to its pair exactly when the time parses and the id is not empty. */
  lemma MailboxCursorRoundTrip(p: Pair, dated: Text -> bool)
    ensures ParseMailboxCursor(BuildMailboxCursor(p), dated) == if dated(p.at) && p.id != [] then Good(p) else Invalid
  {
    assert |CREATED_AT| != |ID|;
    MailboxOrder(p);
    WrapRoundTrip(CREATED_AT, Str(p.at), ID, p.id, MailboxJson(p));
    ObjectFields(CREATED_AT, Str(p.at), ID, p.id);
  }

  /** No cursor is not a bad cursor: the event plane and the mailbox start at the front. */
  lemma EmptyCursor(dated: Text -> bool)
    ensures DecodeJournalCursor([]) == Absent && ParseMailboxCursor([], dated) == Absent
  {
  }
}
