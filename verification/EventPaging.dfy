/** Keyset pages over the event journal (src/event-journal.js, src/event-plane.js): three ways to page, with cursors
    that stay good while events are appended. Times and ids are compared as text, in a total order of the reader's:
    JavaScript compares UTF-16 code units and SQLite the bytes of UTF-8. */
module EventPaging {
  import opened Ordering
  import StableJson

  type Text = StableJson.Text
  type Order = (Text, Text) -> bool

  /** An event_journal row: the columns the queries read. None is SQL NULL. */
  datatype Event = Event(
    occurredAt: Text, id: Text, eventType: Text, eventClass: Text, source: Text, actor: Option<Text>,
    objectRef: Option<Text>, chain: Option<Text>, stone: Option<Text>, sender: Option<Text>, recipient: Option<Text>,
    authority: int)

  datatype Cursor = Cursor(at: Text, id: Text)
  datatype Page = Page(events: seq<Event>, next: Option<Cursor>)

  const DEFAULT_LIST := 20
  const MAX_LIST := 100

  function ClampLimit(limit: Option<int>): (n: nat)
    ensures 1 <= n <= MAX_LIST
  {
    if limit.None? then DEFAULT_LIST
    else if limit.value < 1 then 1
    else if limit.value > MAX_LIST then MAX_LIST
    else limit.value
  }

  /** A page holds twenty rows unless asked, and between one and a hundred. */
  lemma LimitMeaning(limit: Option<int>)
    ensures var n := ClampLimit(limit);
      && (limit.None? ==> n == 20)
      && (limit.Some? ==> n == limit.value || (n == 1 && limit.value < 1) || (n == 100 && limit.value > 100))
      && 1 <= n <= 100
  {
  }

  function KeyOf(e: Event): Cursor { Cursor(e.occurredAt, e.id) }

  predicate Less(order: Order, a: Text, b: Text) { order(a, b) && a != b }

  /** The cursor clause. */
  predicate Older(order: Order, k: Cursor, c: Cursor) {
    Less(order, k.at, c.at) || (k.at == c.at && Less(order, k.id, c.id))
  }

  predicate Past(order: Order, e: Event, after: Option<Cursor>) { after.None? || Older(order, KeyOf(e), after.value) }

  /** The rows a query keeps: those that pass its filter and lie past the cursor. */
  function Selects(order: Order, p: Event -> bool, after: Option<Cursor>): Event -> bool {
    (e: Event) => p(e) && Past(order, e, after)
  }

  /** ORDER BY occurred_at DESC, event_id DESC */
  function NewestFirst(order: Order): (Event, Event) -> bool {
    (a: Event, b: Event) => KeyOf(a) == KeyOf(b) || Older(order, KeyOf(b), KeyOf(a))
  }

  function Take<T>(xs: seq<T>, n: nat): seq<T> { if |xs| <= n then xs else xs[..n] }

  /** The rows a query selects after a cursor, in order. */
  function Matching(order: Order, table: seq<Event>, p: Event -> bool, after: Option<Cursor>): seq<Event> {
    Sort(Filter(table, Selects(order, p, after)), NewestFirst(order))
  }

  function LastKey(events: seq<Event>): Option<Cursor> {
    if events == [] then None else Some(KeyOf(events[|events| - 1]))
  }

  /** A page with a cursor whenever something is left. */
  function PageWithMore(rows: seq<Event>, limit: nat): Page {
    Page(Take(rows, limit), if |rows| > limit then LastKey(Take(rows, limit)) else None)
  }

  /** listEventJournal: LIMIT n, and a cursor whenever the page is full. */
  function JournalPage(order: Order, table: seq<Event>, p: Event -> bool, after: Option<Cursor>, limit: nat): Page {
    var rows := Take(Matching(order, table, p, after), limit);
    Page(rows, if |rows| == limit then LastKey(rows) else None)
  }

  /** queryJournalEvents: everything is sorted in memory. */
  function MemoryPage(order: Order, table: seq<Event>, p: Event -> bool, after: Option<Cursor>, limit: nat): Page {
    PageWithMore(Matching(order, table, p, after), limit)
  }

  /** queryJournalFromBody: LIMIT n + 1, the extra row only tells whether something is left. */
  function FetchedPage(order: Order, table: seq<Event>, p: Event -> bool, after: Option<Cursor>, limit: nat): Page {
    PageWithMore(Take(Matching(order, table, p, after), limit + 1), limit)
  }

  /*** The order of the pages ***/

  lemma OlderTotal(order: Order, a: Cursor, b: Cursor)
    requires TotalOrder(order)
    ensures a == b || Older(order, a, b) || Older(order, b, a)
    ensures !(Older(order, a, b) && Older(order, b, a)) && !Older(order, a, a)
  {
    assert order(a.at, b.at) || order(b.at, a.at);
    assert order(a.id, b.id) || order(b.id, a.id);
  }

  lemma LessTransitive(order: Order, a: Text, b: Text, c: Text)
    requires TotalOrder(order) && Less(order, a, b) && Less(order, b, c)
    ensures Less(order, a, c)
  {
  }

  lemma OlderTransitive(order: Order, a: Cursor, b: Cursor, c: Cursor)
    requires TotalOrder(order) && Older(order, a, b) && Older(order, b, c)
    ensures Older(order, a, c)
  {
    if Less(order, a.at, b.at) && Less(order, b.at, c.at) { LessTransitive(order, a.at, b.at, c.at); }
    if a.at == b.at == c.at { LessTransitive(order, a.id, b.id, c.id); }
  }

  lemma NewestFirstPreorder(order: Order)
    requires TotalOrder(order)
    ensures Preorder(NewestFirst(order))
  {
    var leq := NewestFirst(order);
    forall x: Event, y: Event ensures leq(x, y) || leq(y, x) { OlderTotal(order, KeyOf(x), KeyOf(y)); }
    forall x: Event, y: Event, z: Event | leq(x, y) && leq(y, z) ensures leq(x, z) {
      if KeyOf(x) != KeyOf(y) && KeyOf(y) != KeyOf(z) { OlderTransitive(order, KeyOf(z), KeyOf(y), KeyOf(x)); }
    }
  }

  /** event_id is the primary key. */
  ghost predicate DistinctIds(table: seq<Event>) { DistinctBy(table, (e: Event) => e.id) }

  /** Strictly newest first. */
  ghost predicate Descending(order: Order, events: seq<Event>) {
    forall i, j :: 0 <= i < j < |events| ==> Older(order, KeyOf(events[j]), KeyOf(events[i]))
  }

  /** The selection: the matching rows past the cursor, each as often as in the table, strictly newest first. */
  lemma MatchingMeaning(order: Order, table: seq<Event>, p: Event -> bool, after: Option<Cursor>)
    requires TotalOrder(order) && DistinctIds(table)
    ensures var rows := Matching(order, table, p, after);
      && Descending(order, rows)
      && forall e :: multiset(rows)[e] == if p(e) && Past(order, e, after) then multiset(table)[e] else 0
  {
    var q := Selects(order, p, after);
    var key := (e: Event) => e.id;
    var kept := Filter(table, q);
    var rows := Matching(order, table, p, after);
    NewestFirstPreorder(order);
    SortSorted(kept, NewestFirst(order));
    SortMultiset(kept, NewestFirst(order));
    FilterDistinct(table, q, key);
    KeysStayDistinct(kept, rows, key);
    forall e: Event ensures multiset(rows)[e] == if q(e) then multiset(table)[e] else 0 { FilterCount(table, q, e); }
    forall i, j | 0 <= i < j < |rows| ensures Older(order, KeyOf(rows[j]), KeyOf(rows[i])) {
      assert key(rows[i]) != key(rows[j]);
      assert NewestFirst(order)(rows[i], rows[j]);
    }
  }

  lemma DescendingIsSorted(order: Order, rows: seq<Event>)
    requires TotalOrder(order) && Descending(order, rows)
    ensures Sorted(rows, NewestFirst(order)) && AntisymmetricOn(rows, NewestFirst(order))
  {
    var leq := NewestFirst(order);
    forall i, j | 0 <= i < j < |rows| ensures KeyOf(rows[i]) != KeyOf(rows[j]) {
      OlderTotal(order, KeyOf(rows[i]), KeyOf(rows[j]));
    }
    forall i, j | 0 <= i < |rows| && 0 <= j < |rows| && leq(rows[i], rows[j]) && leq(rows[j], rows[i])
      ensures rows[i] == rows[j]
    {
      OlderTotal(order, KeyOf(rows[i]), KeyOf(rows[j]));
    }
  }

  /** In a strictly descending list, what lies past the k-th key is the rest of the list. */
  lemma PastLast(order: Order, rows: seq<Event>, k: nat, i: nat)
    requires TotalOrder(order) && Descending(order, rows) && 0 < k <= |rows| && i < |rows|
    ensures Older(order, KeyOf(rows[i]), KeyOf(rows[k - 1])) <==> i >= k
  {
    OlderTotal(order, KeyOf(rows[i]), KeyOf(rows[k - 1]));
  }

  /** Every row of the batch is newer than the cursor. */
  ghost predicate Newer(order: Order, batch: seq<Event>, c: Cursor) {
    forall i :: 0 <= i < |batch| ==> Older(order, c, KeyOf(batch[i]))
  }

  lemma PastBoth(order: Order, e: Event, after: Option<Cursor>, c: Cursor)
    requires TotalOrder(order) && (after.Some? ==> Older(order, c, after.value))
    ensures Past(order, e, Some(c)) ==> Past(order, e, after)
  {
    if after.Some? && Older(order, KeyOf(e), c) { OlderTransitive(order, KeyOf(e), c, after.value); }
  }

  function Beyond(order: Order, c: Cursor): Event -> bool { (e: Event) => Older(order, KeyOf(e), c) }

  lemma KeptPast(order: Order, table: seq<Event>, batch: seq<Event>, p: Event -> bool, after: Option<Cursor>, c: Cursor)
    requires TotalOrder(order) && Newer(order, batch, c) && (after.Some? ==> Older(order, c, after.value))
    ensures Filter(table + batch, Selects(order, p, Some(c)))
            == Filter(Filter(table, Selects(order, p, after)), Beyond(order, c))
  {
    var both, first, second := Selects(order, p, Some(c)), Selects(order, p, after), Beyond(order, c);
    forall i | 0 <= i < |batch| ensures !both(batch[i]) { OlderTotal(order, c, KeyOf(batch[i])); }
    FilterNone(batch, both);
    FilterAppend(table, batch, both);
    forall e: Event ensures both(e) <==> first(e) && second(e) { PastBoth(order, e, after, c); }
    FilterTwice(table, first, second, both);
  }

  lemma RestOfSelection(order: Order, kept: seq<Event>, rows: seq<Event>, k: nat)
    requires TotalOrder(order) && Descending(order, rows) && multiset(kept) == multiset(rows) && 0 < k <= |rows|
    ensures Sort(Filter(kept, Beyond(order, KeyOf(rows[k - 1]))), NewestFirst(order)) == rows[k..]
  {
    var past := Beyond(order, KeyOf(rows[k - 1]));
    forall i | 0 <= i < |rows| ensures past(rows[i]) <==> i >= k { PastLast(order, rows, k, i); }
    FilterSuffix(rows, k, past);
    DescendingIsSorted(order, rows[k..]);
    NewestFirstPreorder(order);
    SortFiltered(kept, rows, past, rows[k..], NewestFirst(order));
  }

  /** Past the key of the k-th selected row lies exactly the rest of the selection, even after newer rows came in. */
  lemma NextSelection(order: Order, table: seq<Event>, batch: seq<Event>, p: Event -> bool, after: Option<Cursor>,
                      k: nat)
    requires TotalOrder(order) && DistinctIds(table) && 0 < k <= |Matching(order, table, p, after)|
    requires Newer(order, batch, KeyOf(Matching(order, table, p, after)[k - 1]))
    ensures Matching(order, table + batch, p, Some(KeyOf(Matching(order, table, p, after)[k - 1])))
            == Matching(order, table, p, after)[k..]
  {
    var rows := Matching(order, table, p, after);
    var kept := Filter(table, Selects(order, p, after));
    MatchingMeaning(order, table, p, after);
    assert rows[k - 1] in multiset(rows);
    KeptPast(order, table, batch, p, after, KeyOf(rows[k - 1]));
    SortMultiset(kept, NewestFirst(order));
    RestOfSelection(order, kept, rows, k);
  }

  /*** Following the cursor ***/

  datatype Style = Journal | Plane

  function PageOf(style: Style, order: Order, table: seq<Event>, p: Event -> bool, after: Option<Cursor>, limit: nat)
    : Page
  {
    if style.Journal? then JournalPage(order, table, p, after, limit) else FetchedPage(order, table, p, after, limit)
  }

  datatype Reading = Reading(events: seq<Event>, calls: nat, finished: bool)

  /** One more call ahead of the others. */
  function Then(events: seq<Event>, rest: Reading): Reading {
    Reading(events + rest.events, 1 + rest.calls, rest.finished)
  }

  /** Follow next_cursor to null; before each further call a batch of rows is appended. */
  function Follow(style: Style, order: Order, table: seq<Event>, p: Event -> bool, after: Option<Cursor>, limit: nat,
                  batches: seq<seq<Event>>): Reading
    decreases |batches|
  {
    var page := PageOf(style, order, table, p, after, limit);
    if page.next.None? then Reading(page.events, 1, true)
    else if batches == [] then Reading(page.events, 1, false)
    else Then(page.events, Follow(style, order, table + batches[0], p, page.next, limit, batches[1..]))
  }

  /** Each batch is newer than the cursor held when it is appended, and never repeats an id. */
  ghost predicate Quiet(style: Style, order: Order, table: seq<Event>, p: Event -> bool, after: Option<Cursor>,
                        limit: nat, batches: seq<seq<Event>>)
    decreases |batches|
  {
    DistinctIds(table) &&
    var page := PageOf(style, order, table, p, after, limit);
    page.next.Some? && batches != [] ==>
      && Newer(order, batches[0], page.next.value)
      && Quiet(style, order, table + batches[0], p, page.next, limit, batches[1..])
  }

  /** How many calls it takes to read n rows. */
  function Calls(style: Style, n: nat, limit: nat): nat
    requires limit > 0
  {
    if style.Journal? then n / limit + 1 else if n == 0 then 1 else (n + limit - 1) / limit
  }

  lemma CallsStep(style: Style, n: nat, limit: nat)
    requires limit > 0
    ensures n < limit ==> Calls(style, n, limit) == 1
    ensures n == limit ==> Calls(style, n, limit) == if style.Journal? then 2 else 1
    ensures n > limit || (n == limit && style.Journal?) ==>
              Calls(style, n, limit) == 1 + Calls(style, n - limit, limit)
  {
    if n >= limit {
      DivideOnce(n, limit);
      DivideOnce(n + limit - 1, limit);
      if n == limit { QuotientIs(limit - 1, limit, 0); }
    } else {
      QuotientIs(n, limit, 0);
      if n > 0 {
        DivideOnce(n + limit - 1, limit);
        QuotientIs(n - 1, limit, 0);
      }
    }
  }

  lemma Multiples(d: nat, a: int, b: int)
    requires a <= b
    ensures d * a <= d * b
  {
  }

  lemma QuotientIs(n: nat, d: nat, q: int)
    requires d > 0 && d * q <= n < d * q + d
    ensures n / d == q
  {
    if n / d < q { Multiples(d, n / d + 1, q); }
    if n / d > q { Multiples(d, q + 1, n / d); }
  }

  lemma DivideOnce(n: nat, d: nat)
    requires n >= d > 0
    ensures n / d == 1 + (n - d) / d
  {
    var q := (n - d) / d;
    assert d * (q + 1) == d * q + d;
    QuotientIs(n, d, q + 1);
  }

  lemma FetchOneMore(rows: seq<Event>, n: nat)
    ensures PageWithMore(Take(rows, n + 1), n) == PageWithMore(rows, n)
  {
    assert |rows| > n ==> rows[..n + 1][..n] == rows[..n];
  }

  /** Whether a page of these rows comes with a cursor. */
  predicate HasNext(style: Style, n: nat, limit: nat) { if style.Journal? then n >= limit else n > limit }

  lemma PageMeaning(style: Style, order: Order, table: seq<Event>, p: Event -> bool, after: Option<Cursor>, limit: nat)
    requires limit > 0
    ensures var rows, page := Matching(order, table, p, after), PageOf(style, order, table, p, after, limit);
      && page.events == Take(rows, limit)
      && (page.next.Some? <==> HasNext(style, |rows|, limit))
      && (page.next.Some? ==> |rows| >= limit && page.next.value == KeyOf(rows[limit - 1]))
  {
    FetchOneMore(Matching(order, table, p, after), limit);
  }

  lemma QuietStep(style: Style, order: Order, table: seq<Event>, p: Event -> bool, after: Option<Cursor>, limit: nat,
                  batches: seq<seq<Event>>)
    requires Quiet(style, order, table, p, after, limit, batches)
    ensures DistinctIds(table)
    ensures var page := PageOf(style, order, table, p, after, limit);
      page.next.Some? && batches != [] ==>
        && Newer(order, batches[0], page.next.value)
        && Quiet(style, order, table + batches[0], p, page.next, limit, batches[1..])
  {
  }

  lemma FollowStep(style: Style, order: Order, table: seq<Event>, p: Event -> bool, after: Option<Cursor>, limit: nat,
                   batches: seq<seq<Event>>, page: Page)
    requires page == PageOf(style, order, table, p, after, limit)
    ensures Follow(style, order, table, p, after, limit, batches)
            == if page.next.None? || batches == [] then Reading(page.events, 1, page.next.None?)
               else Then(page.events, Follow(style, order, table + batches[0], p, page.next, limit, batches[1..]))
  {
  }

  /** Reading the rest after a page is reading everything. */
  lemma ThenRest(rows: seq<Event>, n: nat, calls: nat)
    ensures |rows| >= n ==> Then(Take(rows, n), Reading(rows[n..], calls, true)) == Reading(rows, 1 + calls, true)
  {
    if |rows| >= n { assert Take(rows, n) == rows[..n] && rows == rows[..n] + rows[n..]; }
  }

  lemma CallsLast(style: Style, n: nat, limit: nat)
    requires limit > 0
    ensures if HasNext(style, n, limit) then n >= limit && Calls(style, n, limit) == 1 + Calls(style, n - limit, limit)
            else n <= limit && Calls(style, n, limit) == 1
    ensures Calls(style, n, limit) >= 1
  {
    CallsStep(style, n, limit);
    if n > limit { CallsPositive(style, n - limit, limit); }
  }

  lemma CallsPositive(style: Style, n: nat, limit: nat)
    requires limit > 0
    ensures Calls(style, n, limit) >= 1
  {
    if n > 0 { DivideOnce(n + limit - 1, limit); }
  }

  /** A page with a cursor leaves calls to make, one fewer after it. */
  lemma FewerCalls(style: Style, n: nat, limit: nat)
    requires limit > 0 && HasNext(style, n, limit)
    ensures n >= limit && Calls(style, n, limit) == 1 + Calls(style, n - limit, limit) >= 2
  {
    CallsLast(style, n, limit);
    CallsPositive(style, n - limit, limit);
  }

  /** A page with a cursor is the first limit rows, and the next selection is the rows after them. */
  lemma SplitRows(style: Style, order: Order, table: seq<Event>, p: Event -> bool, after: Option<Cursor>, limit: nat,
                  batch: seq<Event>)
    requires TotalOrder(order) && limit > 0 && DistinctIds(table)
    requires PageOf(style, order, table, p, after, limit).next.Some?
    requires Newer(order, batch, PageOf(style, order, table, p, after, limit).next.value)
    ensures var rows, page := Matching(order, table, p, after), PageOf(style, order, table, p, after, limit);
      && HasNext(style, |rows|, limit) && |rows| >= limit
      && page.events == Take(rows, limit) && Matching(order, table + batch, p, page.next) == rows[limit..]
  {
    PageMeaning(style, order, table, p, after, limit);
    NextSelection(order, table, batch, p, after, limit);
  }

  lemma JoinRows(style: Style, rows: seq<Event>, limit: nat)
    requires limit > 0 && HasNext(style, |rows|, limit) && |rows| >= limit
    ensures Calls(style, |rows|, limit) == 1 + Calls(style, |rows[limit..]|, limit)
    ensures Then(Take(rows, limit), Reading(rows[limit..], Calls(style, |rows[limit..]|, limit), true))
            == Reading(rows, Calls(style, |rows|, limit), true)
  {
    CallsLast(style, |rows|, limit);
    ThenRest(rows, limit, Calls(style, |rows| - limit, limit));
  }

  lemma MorePages(style: Style, order: Order, table: seq<Event>, p: Event -> bool, after: Option<Cursor>, limit: nat)
    requires limit > 0 && PageOf(style, order, table, p, after, limit).next.Some?
    ensures Calls(style, |Matching(order, table, p, after)|, limit) >= 2
  {
    PageMeaning(style, order, table, p, after, limit);
    FewerCalls(style, |Matching(order, table, p, after)|, limit);
  }

  /** A page with a cursor and the rows after it, read to the end, are all the rows. */
  lemma JoinPages(style: Style, order: Order, table: seq<Event>, p: Event -> bool, after: Option<Cursor>, limit: nat,
                  batch: seq<Event>)
    requires TotalOrder(order) && limit > 0 && DistinctIds(table)
    requires PageOf(style, order, table, p, after, limit).next.Some?
    requires Newer(order, batch, PageOf(style, order, table, p, after, limit).next.value)
    ensures var rows, page := Matching(order, table, p, after), PageOf(style, order, table, p, after, limit);
      var rest := Matching(order, table + batch, p, page.next);
      && Calls(style, |rows|, limit) == 1 + Calls(style, |rest|, limit)
      && Then(page.events, Reading(rest, Calls(style, |rest|, limit), true))
         == Reading(rows, Calls(style, |rows|, limit), true)
  {
    SplitRows(style, order, table, p, after, limit, batch);
    JoinRows(style, Matching(order, table, p, after), limit);
  }

  /** Following the cursor to its end returns every row that matched at the start, each once and newest first, in
      floor(n / limit) + 1 calls for the journal and max(1, ceil(n / limit)) for the event plane, whatever newer rows
      are appended on the way. */
  lemma {:induction false} FollowReadsAll(style: Style, order: Order, table: seq<Event>, p: Event -> bool,
                                          after: Option<Cursor>, limit: nat, batches: seq<seq<Event>>)
    requires TotalOrder(order) && limit > 0 && Quiet(style, order, table, p, after, limit, batches)
    requires |batches| + 1 >= Calls(style, |Matching(order, table, p, after)|, limit)
    ensures Follow(style, order, table, p, after, limit, batches)
            == Reading(Matching(order, table, p, after), Calls(style, |Matching(order, table, p, after)|, limit), true)
    decreases |batches|
  {
    var page := PageOf(style, order, table, p, after, limit);
    QuietStep(style, order, table, p, after, limit, batches);
    FollowStep(style, order, table, p, after, limit, batches, page);
    if page.next.Some? {
      MorePages(style, order, table, p, after, limit);
      JoinPages(style, order, table, p, after, limit, batches[0]);
      FollowReadsAll(style, order, table + batches[0], p, page.next, limit, batches[1..]);
    } else {
      PageMeaning(style, order, table, p, after, limit);
      CallsLast(style, |Matching(order, table, p, after)|, limit);
    }
  }
}
