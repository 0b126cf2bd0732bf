/** The filters of the event queries (src/event-journal.js, src/event-plane.js): the clauses the journal pushes, and the
    two queries of the event plane, one in memory over JavaScript's text order and one in SQL over SQLite's. */
module EventQueries {
  import opened Ordering
  import StableJson
  import opened Utf8
  import opened EventPaging

  type Text = StableJson.Text

  datatype Truth = True | False | Unknown

  function And(a: Truth, b: Truth): Truth {
    if a.False? || b.False? then False else if a.True? && b.True? then True else Unknown
  }

  function Or(a: Truth, b: Truth): Truth {
    if a.True? || b.True? then True else if a.False? && b.False? then False else Unknown
  }

  function Of(b: bool): Truth { if b then True else False }

  function Equal(a: Option<Text>, b: Option<Text>): Truth {
    if a.None? || b.None? then Unknown else Of(a.value == b.value)
  }

  function Greater(sql: Order, a: Text, b: Option<Text>): Truth {
    if b.None? then Unknown else Of(Less(sql, b.value, a))
  }

  datatype PlaneFilter = PlaneFilter(
    actor: Text, telemetry: bool, eventClass: Option<Text>, eventType: Option<Text>, chain: Option<Text>,
    objectRef: Option<Text>, stone: Option<Text>, since: Option<Text>)

  /** (? IS NULL OR column = ?) */
  function OptionalEqual(column: Option<Text>, wanted: Option<Text>): Truth {
    Or(Of(wanted.None?), Equal(column, wanted))
  }

  /** The WHERE clause of queryJournalFromBody, less the cursor, in SQL's three-valued logic. */
  function Where(sql: Order, f: PlaneFilter, e: Event): Truth {
    var visible := Or(Or(Or(Equal(e.actor, Some(f.actor)), Equal(e.sender, Some(f.actor))),
                         Equal(e.recipient, Some(f.actor))),
                      And(And(Of(f.telemetry), Of(e.actor.None?)), Equal(e.chain, f.chain)));
    And(And(And(And(And(And(And(Of(e.authority == 0), visible),
      OptionalEqual(Some(e.eventClass), f.eventClass)), OptionalEqual(Some(e.eventType), f.eventType)),
      OptionalEqual(e.chain, f.chain)), OptionalEqual(e.objectRef, f.objectRef)), OptionalEqual(e.stone, f.stone)),
      Or(Of(f.since.None?), Greater(sql, e.occurredAt, f.since)))
  }

  /** journalRowVisible */
  predicate Visible(f: PlaneFilter, e: Event) {
    && e.authority == 0
    && ( || e.actor == Some(f.actor) || e.sender == Some(f.actor) || e.recipient == Some(f.actor)
         || (f.telemetry && f.chain.Some? && e.actor.None? && e.chain == f.chain))
  }

  /** JavaScript compares strings by their UTF-16 code units. */
  function JsOrder(): Order { (a: Text, b: Text) => StableJson.TextLeq(a, b) }

  lemma JsOrderTotal()
    ensures TotalOrder(JsOrder())
  {
    forall a: Text, b: Text
      ensures StableJson.TextLeq(a, b) || StableJson.TextLeq(b, a)
      ensures StableJson.TextLeq(a, b) && StableJson.TextLeq(b, a) ==> a == b
    {
      StableJson.TextTotal(a, b);
    }
    forall a: Text, b: Text, c: Text | StableJson.TextLeq(a, b) && StableJson.TextLeq(b, c)
      ensures StableJson.TextLeq(a, c)
    {
      StableJson.TextTransitive(a, b, c);
    }
  }

  /** The in-memory filter of queryJournalEvents, less the cursor and journal_source. */
  predicate Wanted(f: PlaneFilter, e: Event) {
    && Visible(f, e)
    && (f.eventClass.Some? ==> Some(e.eventClass) == f.eventClass)
    && (f.eventType.Some? ==> Some(e.eventType) == f.eventType)
    && (f.chain.Some? ==> e.chain == f.chain) && (f.objectRef.Some? ==> e.objectRef == f.objectRef)
    && (f.stone.Some? ==> e.stone == f.stone) && (f.since.Some? ==> Less(JsOrder(), f.since.value, e.occurredAt))
  }

  const JOURNAL_SOURCE: Text := [106, 111, 117, 114, 110, 97, 108]
  const TASK_RUN_SOURCE: Text := [116, 97, 115, 107, 95, 114, 117, 110]

  /** journal_source, a filter of the in-memory query alone. */
  predicate SourceOk(source: Option<Text>, e: Event) { source.Some? ==> e.source == source.value }

  function WantedBy(f: PlaneFilter): Event -> bool { (e: Event) => Wanted(f, e) }
  function WhereHolds(sql: Order, f: PlaneFilter): Event -> bool { (e: Event) => Where(sql, f, e).True? }
  function FromSource(source: Option<Text>): Event -> bool { (e: Event) => SourceOk(source, e) }
  function Both(p: Event -> bool, q: Event -> bool): Event -> bool { (e: Event) => p(e) && q(e) }

  datatype Answer = Answered(page: Page) | InvalidSource | ChainNameRequired

  /** queryJournalEvents */
  function QueryMemory(table: seq<Event>, f: PlaneFilter, source: Option<Text>, after: Option<Cursor>,
                       limit: Option<int>): Answer
  {
    if source.Some? && source.value != JOURNAL_SOURCE && source.value != TASK_RUN_SOURCE then InvalidSource
    else Answered(MemoryPage(JsOrder(), table, Both(WantedBy(f), FromSource(source)), after, ClampLimit(limit)))
  }

  /** queryJournalFromBody */
  function QueryTable(sql: Order, table: seq<Event>, f: PlaneFilter, after: Option<Cursor>, limit: Option<int>)
    : Answer
  {
    if f.telemetry && f.chain.None? then ChainNameRequired
    else Answered(FetchedPage(sql, table, WhereHolds(sql, f), after, ClampLimit(limit)))
  }

  /*** Where the two text orders agree ***/

  /** A time the query compares: of a row, of the cursor or of since. */
  ghost predicate IsTime(table: seq<Event>, f: PlaneFilter, after: Option<Cursor>, t: Text) {
    || (exists i :: 0 <= i < |table| && table[i].occurredAt == t)
    || f.since == Some(t) || (after.Some? && after.value.at == t)
  }

  ghost predicate IsId(table: seq<Event>, after: Option<Cursor>, t: Text) {
    (exists i :: 0 <= i < |table| && table[i].id == t) || (after.Some? && after.value.id == t)
  }

  predicate SameOn(sql: Order, a: Text, b: Text) { sql(a, b) == JsOrder()(a, b) }

  /** SQLite and JavaScript order the times alike and the ids alike. */
  ghost predicate OrdersAgree(sql: Order, table: seq<Event>, f: PlaneFilter, after: Option<Cursor>) {
    && (forall a, b {:trigger SameOn(sql, a, b)} ::
          IsTime(table, f, after, a) && IsTime(table, f, after, b) ==> SameOn(sql, a, b))
    && (forall a, b {:trigger SameOn(sql, a, b)} ::
          IsId(table, after, a) && IsId(table, after, b) ==> SameOn(sql, a, b))
  }

  lemma OlderSame(sql: Order, k: Cursor, c: Cursor)
    requires SameOn(sql, k.at, c.at) && SameOn(sql, k.id, c.id)
    ensures Older(sql, k, c) <==> Older(JsOrder(), k, c)
  {
  }

  /** A row passes the SQL filter exactly when it passes the JavaScript one, NULL columns included, but for the
      journal_source that only the latter reads. */
  lemma WhereAgrees(sql: Order, f: PlaneFilter, source: Option<Text>, e: Event)
    requires f.since.Some? ==> SameOn(sql, f.since.value, e.occurredAt)
    ensures Where(sql, f, e).True? <==> Wanted(f, e)
    ensures (Where(sql, f, e).True? <==> Wanted(f, e) && SourceOk(source, e)) <==>
              (Wanted(f, e) ==> SourceOk(source, e))
  {
  }

  lemma RowAgrees(sql: Order, table: seq<Event>, f: PlaneFilter, after: Option<Cursor>, i: nat)
    requires OrdersAgree(sql, table, f, after) && i < |table|
    ensures Selects(sql, WhereHolds(sql, f), after)(table[i]) == Selects(JsOrder(), WantedBy(f), after)(table[i])
  {
    var e := table[i];
    assert IsTime(table, f, after, e.occurredAt) && IsId(table, after, e.id);
    if f.since.Some? { assert SameOn(sql, f.since.value, e.occurredAt); }
    WhereAgrees(sql, f, None, e);
    if after.Some? {
      assert SameOn(sql, e.occurredAt, after.value.at) && SameOn(sql, e.id, after.value.id);
      OlderSame(sql, KeyOf(e), after.value);
    }
  }

  lemma PairAgrees(sql: Order, table: seq<Event>, f: PlaneFilter, after: Option<Cursor>, i: nat, j: nat)
    requires OrdersAgree(sql, table, f, after) && i < |table| && j < |table|
    ensures NewestFirst(sql)(table[i], table[j]) == NewestFirst(JsOrder())(table[i], table[j])
  {
    var a, b := table[i], table[j];
    assert IsTime(table, f, after, a.occurredAt) && IsTime(table, f, after, b.occurredAt);
    assert IsId(table, after, a.id) && IsId(table, after, b.id);
    assert SameOn(sql, b.occurredAt, a.occurredAt) && SameOn(sql, b.id, a.id);
    OlderSame(sql, KeyOf(b), KeyOf(a));
  }

  /** Then the two queries select the same rows in the same order, journal_source apart. */
  lemma SameSelection(sql: Order, table: seq<Event>, f: PlaneFilter, after: Option<Cursor>)
    requires OrdersAgree(sql, table, f, after)
    ensures Matching(sql, table, WhereHolds(sql, f), after) == Matching(JsOrder(), table, WantedBy(f), after)
  {
    var p, q := Selects(sql, WhereHolds(sql, f), after), Selects(JsOrder(), WantedBy(f), after);
    forall i | 0 <= i < |table| ensures p(table[i]) == q(table[i]) { RowAgrees(sql, table, f, after, i); }
    FilterSame(table, p, q);
    var kept, leq, leq' := Filter(table, q), NewestFirst(sql), NewestFirst(JsOrder());
    forall i, j | 0 <= i < |kept| && 0 <= j < |kept| ensures leq(kept[i], kept[j]) == leq'(kept[i], kept[j]) {
      assert kept[i] in kept && kept[j] in kept;
      var a :| 0 <= a < |table| && table[a] == kept[i];
      var b :| 0 <= b < |table| && table[b] == kept[j];
      PairAgrees(sql, table, f, after, a, b);
    }
    SortSame(kept, leq, leq');
  }

  /*** What journal_source takes away ***/

  lemma FilterAntisymmetric(order: Order, rows: seq<Event>, p: Event -> bool)
    requires AntisymmetricOn(rows, NewestFirst(order))
    ensures AntisymmetricOn(Filter(rows, p), NewestFirst(order))
  {
    var kept, leq := Filter(rows, p), NewestFirst(order);
    forall i, j | 0 <= i < |kept| && 0 <= j < |kept| && leq(kept[i], kept[j]) && leq(kept[j], kept[i])
      ensures kept[i] == kept[j]
    {
      assert kept[i] in kept && kept[j] in kept;
      assert kept[i] in multiset(rows) && kept[j] in multiset(rows);
      AntisymmetricMember(rows, kept[i], kept[j], leq);
    }
  }

  lemma NarrowedMatching(order: Order, table: seq<Event>, p: Event -> bool, narrow: Event -> bool,
                         after: Option<Cursor>)
    requires TotalOrder(order) && DistinctIds(table)
    ensures Matching(order, table, Both(p, narrow), after) == Filter(Matching(order, table, p, after), narrow)
  {
    var kept, leq := Filter(table, Selects(order, p, after)), NewestFirst(order);
    var rows := Matching(order, table, p, after);
    MatchingMeaning(order, table, p, after);
    SortMultiset(kept, leq);
    DescendingIsSorted(order, rows);
    FilterSorted(rows, narrow, leq);
    FilterAntisymmetric(order, rows, narrow);
    NewestFirstPreorder(order);
    SortFiltered(kept, rows, narrow, Filter(rows, narrow), leq);
    FilterTwice(table, Selects(order, p, after), narrow, Selects(order, Both(p, narrow), after));
  }

  /** Every row of the list passes. */
  ghost predicate AllPass(rows: seq<Event>, narrow: Event -> bool) { forall i :: 0 <= i < |rows| ==> narrow(rows[i]) }

  /** The first n rows of the list all pass, and when there are more, one of those does too. */
  ghost predicate FilterUnseen(rows: seq<Event>, n: nat, narrow: Event -> bool) {
    && AllPass(Take(rows, n), narrow)
    && (|rows| > n ==> exists i :: n <= i < |rows| && narrow(rows[i]))
  }

  lemma FilterPasses(rows: seq<Event>, p: Event -> bool)
    ensures AllPass(Filter(rows, p), p)
    ensures Filter(rows, p) != [] <==> exists i :: 0 <= i < |rows| && p(rows[i])
  {
    var kept := Filter(rows, p);
    forall i | 0 <= i < |kept| ensures p(kept[i]) { assert kept[i] in kept; }
    if kept != [] { assert kept[0] in kept; }
    if i :| 0 <= i < |rows| && p(rows[i]) { assert rows[i] in kept; }
  }

  lemma TakePasses(xs: seq<Event>, n: nat, p: Event -> bool)
    requires AllPass(xs, p)
    ensures AllPass(Take(xs, n), p)
  {
  }

  lemma LaterPasses(rows: seq<Event>, n: nat, narrow: Event -> bool)
    requires n < |rows|
    ensures Filter(rows[n..], narrow) != [] <==> exists i :: n <= i < |rows| && narrow(rows[i])
  {
    var rest := rows[n..];
    FilterPasses(rest, narrow);
    if i :| n <= i < |rows| && narrow(rows[i]) { assert rest[i - n] == rows[i]; }
  }

  lemma UnseenAfter(rows: seq<Event>, n: nat, narrow: Event -> bool)
    requires n < |rows| && AllPass(rows[..n], narrow)
    ensures Filter(rows, narrow) == rows[..n] + Filter(rows[n..], narrow)
  {
    assert rows == rows[..n] + rows[n..];
    FilterAppend(rows[..n], rows[n..], narrow);
    FilterAll(rows[..n], narrow);
  }

  lemma TakeOfSum(first: seq<Event>, rest: seq<Event>)
    ensures Take(first + rest, |first|) == first && (|first + rest| > |first| <==> rest != [])
  {
  }

  /** A narrower list gives the same page exactly when its filter removes nothing from the page and not everything
      after it. */
  lemma SamePage(rows: seq<Event>, n: nat, narrow: Event -> bool)
    ensures Take(Filter(rows, narrow), n) == Take(rows, n) && (|Filter(rows, narrow)| > n <==> |rows| > n)
            <==> FilterUnseen(rows, n, narrow)
  {
    var kept := Filter(rows, narrow);
    FilterPasses(rows, narrow);
    TakePasses(kept, n, narrow);
    if AllPass(Take(rows, n), narrow) {
      if |rows| > n {
        UnseenAfter(rows, n, narrow);
        TakeOfSum(rows[..n], Filter(rows[n..], narrow));
        LaterPasses(rows, n, narrow);
      } else {
        FilterAll(rows, narrow);
      }
    }
  }

  /** A page is its rows and whether anything is left. */
  lemma PageParts(rows: seq<Event>, kept: seq<Event>, n: nat)
    requires n > 0
    ensures PageWithMore(kept, n) == PageWithMore(rows, n)
            <==> Take(kept, n) == Take(rows, n) && (|kept| > n <==> |rows| > n)
  {
  }

  /** The in-memory page and the SQL page, for one page size. */
  ghost predicate PagesAgree(sql: Order, table: seq<Event>, f: PlaneFilter, source: Option<Text>, after: Option<Cursor>,
                             n: nat) {
    MemoryPage(JsOrder(), table, Both(WantedBy(f), FromSource(source)), after, n)
    == FetchedPage(sql, table, WhereHolds(sql, f), after, n)
  }

  lemma PagesExact(sql: Order, table: seq<Event>, f: PlaneFilter, source: Option<Text>, after: Option<Cursor>, n: nat)
    requires OrdersAgree(sql, table, f, after) && DistinctIds(table) && n > 0
    ensures PagesAgree(sql, table, f, source, after, n)
            <==> FilterUnseen(Matching(JsOrder(), table, WantedBy(f), after), n, FromSource(source))
  {
    var rows := Matching(JsOrder(), table, WantedBy(f), after);
    JsOrderTotal();
    NarrowedMatching(JsOrder(), table, WantedBy(f), FromSource(source), after);
    SameSelection(sql, table, f, after);
    FetchOneMore(rows, n);
    PageParts(rows, Filter(rows, FromSource(source)), n);
    SamePage(rows, n, FromSource(source));
  }

  /** Where the text orders agree, the two queries of the event plane give the same answer exactly when neither refuses
      and the journal_source filter, which only the in-memory one reads, leaves the page and the question of a further
      page alone. */
  lemma PlaneAnswersAgree(sql: Order, table: seq<Event>, f: PlaneFilter, source: Option<Text>, after: Option<Cursor>,
                          limit: Option<int>)
    requires OrdersAgree(sql, table, f, after) && DistinctIds(table)
    ensures QueryMemory(table, f, source, after, limit) == QueryTable(sql, table, f, after, limit)
            <==> && (source.None? || source.value == JOURNAL_SOURCE || source.value == TASK_RUN_SOURCE)
                 && (f.telemetry ==> f.chain.Some?)
                 && FilterUnseen(Matching(JsOrder(), table, WantedBy(f), after), ClampLimit(limit), FromSource(source))
  {
    PagesExact(sql, table, f, source, after, ClampLimit(limit));
  }

  lemma AlwaysUnseen(rows: seq<Event>, narrow: Event -> bool)
    ensures (forall n: nat {:trigger FilterUnseen(rows, n, narrow)} :: n > 0 ==> FilterUnseen(rows, n, narrow))
            <==> AllPass(rows, narrow)
  {
    if AllPass(rows, narrow) {
      forall n: nat | n > 0 ensures FilterUnseen(rows, n, narrow) {
        TakePasses(rows, n, narrow);
        assert |rows| > n ==> narrow(rows[n]);
      }
    }
    if forall n: nat {:trigger FilterUnseen(rows, n, narrow)} :: n > 0 ==> FilterUnseen(rows, n, narrow) {
      assert FilterUnseen(rows, |rows| + 1, narrow);
    }
  }

  /** Every row that is asked for and past the cursor passes journal_source. */
  ghost predicate SourceIdle(table: seq<Event>, f: PlaneFilter, source: Option<Text>, after: Option<Cursor>) {
    forall i :: 0 <= i < |table| && Wanted(f, table[i]) && Past(JsOrder(), table[i], after) ==>
      SourceOk(source, table[i])
  }

  lemma SelectedPass(table: seq<Event>, f: PlaneFilter, source: Option<Text>, after: Option<Cursor>)
    ensures AllPass(Matching(JsOrder(), table, WantedBy(f), after), FromSource(source))
            <==> SourceIdle(table, f, source, after)
  {
    var q := Selects(JsOrder(), WantedBy(f), after);
    var kept, rows := Filter(table, q), Matching(JsOrder(), table, WantedBy(f), after);
    SortMultiset(kept, NewestFirst(JsOrder()));
    if SourceIdle(table, f, source, after) {
      forall k | 0 <= k < |rows| ensures SourceOk(source, rows[k]) {
        assert rows[k] in rows && rows[k] in kept;
        var i :| 0 <= i < |table| && table[i] == rows[k];
      }
    }
    if AllPass(rows, FromSource(source)) {
      forall i | 0 <= i < |table| && q(table[i]) ensures SourceOk(source, table[i]) {
        assert table[i] in kept && table[i] in rows;
        var k :| 0 <= k < |rows| && rows[k] == table[i];
        assert FromSource(source)(rows[k]);
      }
    }
  }

  /** With any page size at all, the pages agree exactly when every row that is asked for and past the cursor passes
      the journal_source filter; without that filter, always. */
  lemma PlanePagesAgree(sql: Order, table: seq<Event>, f: PlaneFilter, source: Option<Text>, after: Option<Cursor>)
    requires OrdersAgree(sql, table, f, after) && DistinctIds(table)
    ensures (forall n: nat {:trigger PagesAgree(sql, table, f, source, after, n)} ::
               n > 0 ==> PagesAgree(sql, table, f, source, after, n))
            <==> SourceIdle(table, f, source, after)
  {
    var rows, narrow := Matching(JsOrder(), table, WantedBy(f), after), FromSource(source);
    forall n: nat | n > 0 ensures PagesAgree(sql, table, f, source, after, n) <==> FilterUnseen(rows, n, narrow) {
      PagesExact(sql, table, f, source, after, n);
    }
    AlwaysUnseen(rows, narrow);
    SelectedPass(table, f, source, after);
  }

  /*** Where the two text orders part ***/

  predicate Ascii(t: Text) { forall i :: 0 <= i < |t| ==> t[i] < 0x80 }

  lemma {:induction false} AsciiBytes(t: Text)
    requires Ascii(t)
    ensures Encode(t) == t
    decreases |t|
  {
    if t != [] {
      AsciiBytes(t[1..]);
      assert t == [t[0]] + t[1..];
    }
  }

  /** SQLite compares text by its UTF-8 bytes; on ASCII, which the ids and times the repository mints are, that is
      JavaScript's order. */
  lemma AsciiAgrees(a: Text, b: Text)
    requires Ascii(a) && Ascii(b)
    ensures StableJson.TextLeq(Encode(a), Encode(b)) <==> StableJson.TextLeq(a, b)
  {
    AsciiBytes(a);
    AsciiBytes(b);
  }

  /** Beyond the basic plane the orders part: U+FF5E is before U+1F600 in UTF-8 bytes and after it in UTF-16 units. */
  lemma OrdersPart()
    ensures var tilde, face := [0xFF5E], [0xD83D, 0xDE00];
      && StableJson.TextLeq(Encode(tilde), Encode(face)) && !StableJson.TextLeq(Encode(face), Encode(tilde))
      && JsOrder()(face, tilde) && !JsOrder()(tilde, face)
  {
    var tilde, face := [0xFF5E], [0xD83D, 0xDE00];
    assert Encode(tilde[1..]) == [] && Encode(face[2..]) == [];
    assert Encode(tilde) == UnitBytes(0xFF5E) + [] == [0xEF, 0xBD, 0x9E];
    assert Encode(face) == PairBytes(0xD83D, 0xDE00) + [] == [0xF0, 0x9F, 0x98, 0x80];
  }

  function RowOf(id: Text): Event {
    Event([], id, [], [], JOURNAL_SOURCE, Some([]), None, None, None, None, None, 0)
  }

  lemma SortTwo(a: Event, b: Event, leq: (Event, Event) -> bool)
    ensures Sort([a, b], leq) == if leq(a, b) then [a, b] else [b, a]
  {
    assert [a, b][1..] == [b] && [b][1..] == [];
    assert Sort([b], leq) == Insert(b, Sort([b][1..], leq), leq) == [b];
    assert Sort([a, b], leq) == Insert(a, [b], leq);
    assert Insert(a, [b][1..], leq) == [a];
  }

  /** Of two rows that are both wanted the first page of one holds the first in the order. */
  lemma OneOfTwo(order: Order, p: Event -> bool, a: Event, b: Event)
    requires p(a) && p(b)
    ensures var first := if NewestFirst(order)(a, b) then a else b;
      MemoryPage(order, [a, b], p, None, 1) == Page([first], Some(KeyOf(first)))
  {
    FilterAll([a, b], Selects(order, p, None));
    SortTwo(a, b, NewestFirst(order));
  }

  /** Two rows of one time, both wanted, whose first page is the later id's in the order given. */
  lemma FirstOfTwo(order: Order, p: Event -> bool, lower: Text, higher: Text)
    requires TotalOrder(order) && order(lower, higher) && lower != higher && p(RowOf(lower)) && p(RowOf(higher))
    ensures MemoryPage(order, [RowOf(lower), RowOf(higher)], p, None, 1)
            == MemoryPage(order, [RowOf(higher), RowOf(lower)], p, None, 1)
            == Page([RowOf(higher)], Some(KeyOf(RowOf(higher))))
  {
    OneOfTwo(order, p, RowOf(lower), RowOf(higher));
    OneOfTwo(order, p, RowOf(higher), RowOf(lower));
    assert !order(higher, lower);
  }

  /** So two rows of one time with these ids, one to a page, come in another order from SQL than from memory. */
  lemma QueriesPart(sql: Order)
    requires TotalOrder(sql) && sql([0xFF5E], [0xD83D, 0xDE00])
    ensures var table := [RowOf([0xFF5E]), RowOf([0xD83D, 0xDE00])];
      var f := PlaneFilter([], false, None, None, None, None, None, None);
      QueryMemory(table, f, None, None, Some(1)) != QueryTable(sql, table, f, None, Some(1))
  {
    var tilde, face := [0xFF5E], [0xD83D, 0xDE00];
    var table := [RowOf(tilde), RowOf(face)];
    var f := PlaneFilter([], false, None, None, None, None, None, None);
    OrdersPart();
    JsOrderTotal();
    FirstOfTwo(JsOrder(), Both(WantedBy(f), FromSource(None)), face, tilde);
    FirstOfTwo(sql, WhereHolds(sql, f), tilde, face);
    FetchOneMore(Matching(sql, table, WhereHolds(sql, f), None), 1);
    assert QueryMemory(table, f, None, None, Some(1)).page.events == [RowOf(tilde)];
    assert QueryTable(sql, table, f, None, Some(1)).page.events == [RowOf(face)];
    assert RowOf(tilde).id != RowOf(face).id;
    assert [RowOf(tilde)][0] != [RowOf(face)][0];
  }

  /*** The journal's clauses ***/

  datatype Column = TypeColumn | ClassColumn | ActorColumn | ObjectColumn | ChainColumn | StoneColumn
  datatype Clause = Equals(column: Column, text: Text) | Since(text: Text) | OlderThan(cursor: Cursor)
  datatype JournalFilter = JournalFilter(fields: map<Column, Text>, since: Option<Text>)

  function ValueOf(e: Event, c: Column): Option<Text> {
    match c
    case TypeColumn => Some(e.eventType)
    case ClassColumn => Some(e.eventClass)
    case ActorColumn => e.actor
    case ObjectColumn => e.objectRef
    case ChainColumn => e.chain
    case StoneColumn => e.stone
  }

  predicate Holds(sql: Order, e: Event, c: Clause) {
    match c
    case Equals(column, text) => Equal(ValueOf(e, column), Some(text)).True?
    case Since(text) => Less(sql, text, e.occurredAt)
    case OlderThan(cursor) => Older(sql, KeyOf(e), cursor)
  }

  predicate HoldsAll(sql: Order, e: Event, clauses: seq<Clause>) {
    forall i :: 0 <= i < |clauses| ==> Holds(sql, e, clauses[i])
  }

  predicate FieldsMatch(f: JournalFilter, e: Event) { forall c :: c in f.fields ==> ValueOf(e, c) == Some(f.fields[c]) }

  predicate Asked(sql: Order, f: JournalFilter, e: Event) {
    FieldsMatch(f, e) && (f.since.Some? ==> Less(sql, f.since.value, e.occurredAt))
  }

  function AskedBy(sql: Order, f: JournalFilter): Event -> bool { (e: Event) => Asked(sql, f, e) }
  function Meets(sql: Order, clauses: seq<Clause>): Event -> bool { (e: Event) => HoldsAll(sql, e, clauses) }

  function Columns(): seq<Column> { [TypeColumn, ClassColumn, ActorColumn, ObjectColumn, ChainColumn, StoneColumn] }

  /** One clause for each of the first n columns that the filter names, and no other. */
  ghost predicate FieldClauses(f: JournalFilter, clauses: seq<Clause>, n: nat)
    requires n <= |Columns()|
  {
    && (forall k :: 0 <= k < |clauses| ==>
          clauses[k].Equals? && clauses[k].column in f.fields && clauses[k].text == f.fields[clauses[k].column])
    && (forall k :: 0 <= k < n && Columns()[k] in f.fields ==>
          Equals(Columns()[k], f.fields[Columns()[k]]) in clauses)
  }

  /** The clauses listEventJournal pushes: a row satisfies them all exactly when it is asked for and past the cursor. */
  method BuildClauses(f: JournalFilter, after: Option<Cursor>) returns (clauses: seq<Clause>)
    ensures forall sql: Order, e: Event ::
              HoldsAll(sql, e, clauses) <==> Asked(sql, f, e) && Past(sql, e, after)
  {
    clauses := [];
    for i := 0 to |Columns()|
      invariant FieldClauses(f, clauses, i)
    {
      var column := Columns()[i];
      ghost var before := clauses;
      if column in f.fields { clauses := clauses + [Equals(column, f.fields[column])]; }
      OneMoreField(f, before, clauses, i);
    }
    ghost var equalities := clauses;
    if f.since.Some? { clauses := clauses + [Since(f.since.value)]; }
    ghost var dated := clauses;
    if after.Some? { clauses := clauses + [OlderThan(after.value)]; }
    forall sql: Order, e: Event
      ensures HoldsAll(sql, e, clauses) <==> Asked(sql, f, e) && Past(sql, e, after)
    {
      ClausesMeaning(sql, f, after, equalities, dated, clauses, e);
    }
  }

  lemma OneMoreField(f: JournalFilter, before: seq<Clause>, clauses: seq<Clause>, i: nat)
    requires i < |Columns()| && FieldClauses(f, before, i)
    requires var c := Columns()[i]; clauses == if c in f.fields then before + [Equals(c, f.fields[c])] else before
    ensures FieldClauses(f, clauses, i + 1)
  {
    var c := Columns()[i];
    if c in f.fields { assert clauses[|before|] == Equals(c, f.fields[c]); }
  }

  lemma ClausesMeaning(sql: Order, f: JournalFilter, after: Option<Cursor>, equalities: seq<Clause>,
                       dated: seq<Clause>, clauses: seq<Clause>, e: Event)
    requires FieldClauses(f, equalities, |Columns()|)
    requires dated == if f.since.Some? then equalities + [Since(f.since.value)] else equalities
    requires clauses == if after.Some? then dated + [OlderThan(after.value)] else dated
    ensures HoldsAll(sql, e, clauses) <==> Asked(sql, f, e) && Past(sql, e, after)
  {
    FieldsMeaning(sql, f, equalities, e);
    if f.since.Some? { OneMoreClause(sql, e, equalities, Since(f.since.value)); }
    if after.Some? { OneMoreClause(sql, e, dated, OlderThan(after.value)); }
  }

  lemma OneMoreClause(sql: Order, e: Event, clauses: seq<Clause>, c: Clause)
    ensures HoldsAll(sql, e, clauses + [c]) <==> HoldsAll(sql, e, clauses) && Holds(sql, e, c)
  {
    var more := clauses + [c];
    assert more[|clauses|] == c;
    assert forall i :: 0 <= i < |clauses| ==> more[i] == clauses[i];
  }

  lemma FieldsMeaning(sql: Order, f: JournalFilter, clauses: seq<Clause>, e: Event)
    requires FieldClauses(f, clauses, |Columns()|)
    ensures HoldsAll(sql, e, clauses) <==> FieldsMatch(f, e)
  {
    if HoldsAll(sql, e, clauses) {
      forall c | c in f.fields ensures ValueOf(e, c) == Some(f.fields[c]) {
        var k := EveryColumn(c);
        var i :| 0 <= i < |clauses| && clauses[i] == Equals(c, f.fields[c]);
        assert Holds(sql, e, clauses[i]);
      }
    }
  }

  lemma EveryColumn(c: Column) returns (k: nat)
    ensures k < |Columns()| && Columns()[k] == c
  {
    k := match c
      case TypeColumn => 0
      case ClassColumn => 1
      case ActorColumn => 2
      case ObjectColumn => 3
      case ChainColumn => 4
      case StoneColumn => 5;
  }

  /** What a caller asks the journal for, column by column, and what lies past a cursor: the newest first, a row is past
      when it is older, or as old with a smaller id. */
  lemma AskedMeaning(sql: Order, f: JournalFilter, after: Option<Cursor>, e: Event)
    requires TotalOrder(sql)
    ensures Asked(sql, f, e) <==>
              && (TypeColumn in f.fields ==> e.eventType == f.fields[TypeColumn])
              && (ClassColumn in f.fields ==> e.eventClass == f.fields[ClassColumn])
              && (ActorColumn in f.fields ==> e.actor == Some(f.fields[ActorColumn]))
              && (ObjectColumn in f.fields ==> e.objectRef == Some(f.fields[ObjectColumn]))
              && (ChainColumn in f.fields ==> e.chain == Some(f.fields[ChainColumn]))
              && (StoneColumn in f.fields ==> e.stone == Some(f.fields[StoneColumn]))
              && (f.since.Some? ==> e.occurredAt != f.since.value && sql(f.since.value, e.occurredAt))
    ensures Past(sql, e, after) <==>
              after.Some? ==>
                || (e.occurredAt != after.value.at && sql(e.occurredAt, after.value.at))
                || (e.occurredAt == after.value.at && e.id != after.value.id && sql(e.id, after.value.id))
  {
  }

  method ListEventJournal(sql: Order, table: seq<Event>, f: JournalFilter, after: Option<Cursor>, limit: Option<int>)
    returns (page: Page)
    ensures page == JournalPage(sql, table, AskedBy(sql, f), after, ClampLimit(limit))
  {
    var clauses := BuildClauses(f, after);
    var n := ClampLimit(limit);
    var rows := Take(Sort(Filter(table, Meets(sql, clauses)), NewestFirst(sql)), n);
    FilterSame(table, Meets(sql, clauses), Selects(sql, AskedBy(sql, f), after));
    page := Page(rows, if |rows| == n then LastKey(rows) else None);
  }
}
