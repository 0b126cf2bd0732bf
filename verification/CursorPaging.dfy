/** Following next_cursor as callers do, by its text: the pages of EventPaging with the cursors of Cursors. */
module CursorPaging {
  import opened Ordering
  import opened EventPaging
  import C = Cursors

  /** normalizeIso, and cleanOptionalString less its null. */
  datatype Forms = Forms(normalize: Text -> Option<Text>, clean: Text -> Option<Text>)

  /** The text of next_cursor; None is null. */
  function NextText(style: Style, c: Cursor): Option<Text> {
    match style
    case Journal => C.EncodeEventCursor(C.Pair(c.at, c.id))
    case Plane => Some(C.EncodeProjectedCursor(C.Pair(c.at, c.id)))
  }

  /** What after_cursor means to the next call; None is a refused cursor. */
  function AfterText(style: Style, text: Option<Text>, forms: Forms): Option<Option<Cursor>> {
    if text.None? || text.value == [] then Some(None)
    else
      var decoded := match style
        case Journal => C.DecodeEventCursor(text.value, forms.normalize, forms.clean)
        case Plane => C.DecodeJournalCursor(text.value);
      if decoded.Good? then Some(Some(Cursor(decoded.pair.at, decoded.pair.id))) else None
  }

  /** The time and the id of a row come back from its cursor. */
  predicate Normal(style: Style, c: Cursor, forms: Forms) {
    && c.at != []
    && (style.Journal? ==> c.id != [] && forms.normalize(c.at) == Some(c.at) && forms.clean(c.id) == Some(c.id))
  }

  /** The next call takes up after the key exactly when the key is in normal form. */
  lemma NextDecodes(style: Style, c: Cursor, forms: Forms)
    ensures AfterText(style, NextText(style, c), forms) == Some(Some(c)) <==> Normal(style, c, forms)
  {
    var p := C.Pair(c.at, c.id);
    match style
    case Journal => C.EventCursorRoundTrip(p, forms.normalize, forms.clean);
    case Plane => C.ProjectedCursorRoundTrip(p);
  }

  /** How a caller's text is written and read; both are fixed by the style and the normal forms. */
  datatype Codec = Codec(next: Cursor -> Option<Text>, after: Option<Text> -> Option<Option<Cursor>>)

  function CodecOf(style: Style, forms: Forms): Codec {
    Codec(c => NextText(style, c), text => AfterText(style, text, forms))
  }

  /** Follow the text of next_cursor to null; None when a call refuses its cursor. */
  function FollowText(style: Style, order: Order, table: seq<Event>, p: Event -> bool, text: Option<Text>, limit: nat,
                      batches: seq<seq<Event>>, codec: Codec): Option<Reading>
    decreases |batches|
  {
    match codec.after(text)
    case None => None
    case Some(after) =>
      var page := PageOf(style, order, table, p, after, limit);
      var next := if page.next.None? then None else codec.next(page.next.value);
      if next.None? then Some(Reading(page.events, 1, true))
      else if batches == [] then Some(Reading(page.events, 1, false))
      else
        match FollowText(style, order, table + batches[0], p, next, limit, batches[1..], codec)
        case None => None
        case Some(rest) => Some(Then(page.events, rest))
  }

  /** The cursor made for the key is read as the key. */
  predicate Faithful(codec: Codec, c: Cursor) { codec.next(c).Some? && codec.after(codec.next(c)) == Some(Some(c)) }

  predicate AllFaithful(codec: Codec, rows: seq<Event>) {
    forall i :: 0 <= i < |rows| ==> Faithful(codec, KeyOf(rows[i]))
  }

  /** Every row's time and id are in normal form. */
  predicate AllNormal(style: Style, rows: seq<Event>, forms: Forms) {
    forall i :: 0 <= i < |rows| ==> Normal(style, KeyOf(rows[i]), forms)
  }

  lemma NormalIsFaithful(style: Style, rows: seq<Event>, forms: Forms)
    ensures AllFaithful(CodecOf(style, forms), rows) <==> AllNormal(style, rows, forms)
  {
    var codec := CodecOf(style, forms);
    forall i | 0 <= i < |rows|
      ensures Faithful(codec, KeyOf(rows[i])) <==> Normal(style, KeyOf(rows[i]), forms)
    {
      NextDecodes(style, KeyOf(rows[i]), forms);
    }
  }

  /** A page's cursor is the key of a row of the table. */
  lemma NextIsFaithful(style: Style, order: Order, table: seq<Event>, p: Event -> bool, after: Option<Cursor>,
                       limit: nat, codec: Codec)
    requires limit > 0 && AllFaithful(codec, table) && PageOf(style, order, table, p, after, limit).next.Some?
    ensures Faithful(codec, PageOf(style, order, table, p, after, limit).next.value)
  {
    var rows := Matching(order, table, p, after);
    var kept := Filter(table, Selects(order, p, after));
    PageMeaning(style, order, table, p, after, limit);
    SortMultiset(kept, NewestFirst(order));
    assert rows[limit - 1] in rows && rows[limit - 1] in kept;
  }

  lemma FaithfulTogether(codec: Codec, table: seq<Event>, batch: seq<Event>)
    requires AllFaithful(codec, table) && AllFaithful(codec, batch)
    ensures AllFaithful(codec, table + batch)
  {
  }

  /** One call by text, when its cursors are faithful, is one call by key. */
  lemma TextStep(style: Style, order: Order, table: seq<Event>, p: Event -> bool, text: Option<Text>,
                 after: Option<Cursor>, limit: nat, batches: seq<seq<Event>>, codec: Codec, page: Page)
    requires codec.after(text) == Some(after) && page == PageOf(style, order, table, p, after, limit)
    requires page.next.Some? ==> Faithful(codec, page.next.value)
    ensures FollowText(style, order, table, p, text, limit, batches, codec)
            == if page.next.None? || batches == [] then Some(Reading(page.events, 1, page.next.None?))
               else
                 match FollowText(style, order, table + batches[0], p, codec.next(page.next.value), limit, batches[1..],
                                  codec)
                 case None => None
                 case Some(rest) => Some(Then(page.events, rest))
  {
  }

  ghost predicate BatchesFaithful(codec: Codec, batches: seq<seq<Event>>) {
    forall i {:trigger batches[i]} :: 0 <= i < |batches| ==> AllFaithful(codec, batches[i])
  }

  lemma {:induction false} FollowTextIsFollow(style: Style, order: Order, table: seq<Event>, p: Event -> bool,
                                              text: Option<Text>, after: Option<Cursor>, limit: nat,
                                              batches: seq<seq<Event>>, codec: Codec)
    requires limit > 0 && codec.after(text) == Some(after) && AllFaithful(codec, table)
    requires BatchesFaithful(codec, batches)
    ensures FollowText(style, order, table, p, text, limit, batches, codec)
            == Some(Follow(style, order, table, p, after, limit, batches))
    decreases |batches|
  {
    var page := PageOf(style, order, table, p, after, limit);
    if page.next.Some? { NextIsFaithful(style, order, table, p, after, limit, codec); }
    TextStep(style, order, table, p, text, after, limit, batches, codec, page);
    FollowStep(style, order, table, p, after, limit, batches, page);
    if page.next.Some? && batches != [] {
      FaithfulTogether(codec, table, batches[0]);
      FollowTextIsFollow(style, order, table + batches[0], p, codec.next(page.next.value), page.next, limit,
                         batches[1..], codec);
    }
  }

  /** A caller that starts without a cursor and passes each next_cursor back as text reads every matching event once,
      newest first, in the stated number of calls, whatever newer rows are appended on the way, when the times and ids
      of all rows are in normal form. */
  lemma FollowTextReadsAll(style: Style, order: Order, table: seq<Event>, p: Event -> bool, limit: nat,
                           batches: seq<seq<Event>>, forms: Forms)
    requires TotalOrder(order) && limit > 0 && AllNormal(style, table, forms)
    requires forall i :: 0 <= i < |batches| ==> AllNormal(style, batches[i], forms)
    requires Quiet(style, order, table, p, None, limit, batches)
    requires |batches| + 1 >= Calls(style, |Matching(order, table, p, None)|, limit)
    ensures FollowText(style, order, table, p, None, limit, batches, CodecOf(style, forms))
            == Some(Reading(Matching(order, table, p, None),
                            Calls(style, |Matching(order, table, p, None)|, limit), true))
  {
    NormalIsFaithful(style, table, forms);
    forall i | 0 <= i < |batches| ensures AllFaithful(CodecOf(style, forms), batches[i]) {
      NormalIsFaithful(style, batches[i], forms);
    }
    FollowTextIsFollow(style, order, table, p, None, None, limit, batches, CodecOf(style, forms));
    FollowReadsAll(style, order, table, p, None, limit, batches);
  }
}
