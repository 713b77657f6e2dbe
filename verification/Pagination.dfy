/** Keyset pagination: cursors, pages, and the loop that follows them
    (internal/store/page.go, internal/store/sqlite/helpers.go, internal/memory/notebook.go). */
module Pagination {
  import opened Text
  import opened Strings
  import opened Sorting

  /** What a cursor names: a timestamp in nanoseconds and an id. */
  datatype Key = Key(at: int64, id: string)

  datatype Entry = Entry(key: Key, body: string)

  const DEFAULT_LIMIT: nat := 50
  const MAX_LIMIT: nat := 200

  function ClampLimit(n: int): (r: nat)
    ensures 1 <= r <= MAX_LIMIT
  {
    if n <= 0 then DEFAULT_LIMIT else if n > MAX_LIMIT then MAX_LIMIT else n
  }

  // ----- cursors ----------------------------------------------------------------------

  function EncodeCursor(k: Key): string { FormatInt(k.at) + "|" + k.id }

  function DecodeCursor(text: string): Option<Key> {
    var raw := TrimSpace(text);
    var (nanos, id, ok) := Cut(raw, '|');
    if raw == "" || !ok || id == "" then None
    else
      match ParseInt(nanos)
      case None => None
      case Some(at) => Some(Key(at, id))
  }

  /** An id a cursor can carry: it does not end in white space. */
  predicate Carried(id: string) { id != "" && !IsSpace(id[|id| - 1]) }

  lemma EncodedShape(k: Key)
    ensures var s := EncodeCursor(k); s != "" && !IsSpace(s[0]) && Cut(FormatInt(k.at) + "|" + k.id, '|') == (FormatInt(k.at), k.id, true)
  {
    ParseFormatInt(k.at);
    var digits := FormatInt(k.at);
    assert digits[0] in digits;
    hide FormatInt, ParseInt;
    CutAt(digits, '|', k.id);
  }

  lemma TrimLeftKeeps(s: string)
    requires s != "" && !IsSpace(s[0])
    ensures TrimLeft(s) == s
  {
  }

  lemma {:induction false} TrimRightLength(s: string)
    ensures TrimRight(s) <= s
    ensures s != "" && IsSpace(s[|s| - 1]) ==> |TrimRight(s)| < |s|
  {
    if s != "" && IsSpace(s[|s| - 1]) {
      TrimRightLength(s[..|s| - 1]);
    }
  }

  /** A cursor comes back as it went in exactly when its id can be carried. */
  lemma CursorRoundTrip(k: Key)
    ensures DecodeCursor(EncodeCursor(k)) == Some(k) <==> Carried(k.id)
  {
    var s := EncodeCursor(k);
    EncodedShape(k);
    TrimLeftKeeps(s);
    TrimRightLength(s);
    ParseFormatInt(k.at);
    hide FormatInt, ParseInt, TrimLeft;
    if k.id != "" {
      assert s[|s| - 1] == k.id[|k.id| - 1];
      if IsSpace(k.id[|k.id| - 1]) {
        Lost(k);
      } else {
        assert TrimRight(s) == s;
      }
    } else {
      Lost(k);
    }
  }

  lemma Lost(k: Key)
    requires !Carried(k.id)
    ensures DecodeCursor(EncodeCursor(k)) != Some(k)
  {
    var s := EncodeCursor(k);
    EncodedShape(k);
    TrimLeftKeeps(s);
    TrimRightLength(s);
    ParseFormatInt(k.at);
    hide FormatInt, ParseInt, TrimLeft, TrimRight;
    var raw := TrimSpace(s);
    if DecodeCursor(s) == Some(k) {
      var (nanos, id, ok) := Cut(raw, '|');
      assert raw == nanos + "|" + id && raw <= s;
      var n := |FormatInt(k.at)|;
      assert s[n] == '|';
      SamePrefix(s, raw, FormatInt(k.at), nanos, k.id);
    }
  }

  /** Cutting a prefix at the same separator gives the same first part. */
  lemma SamePrefix(s: string, raw: string, digits: string, nanos: string, id: string)
    requires s == digits + "|" + id && raw <= s && raw == nanos + "|" + id
    requires '|' !in digits && '|' !in nanos
    ensures raw == s
  {
    assert s[|digits|] == '|' && raw[|nanos|] == '|';
    NotInside(digits, s, |nanos|);
    NotInside(nanos, s, |digits|);
  }

  lemma NotInside(a: string, s: string, n: nat)
    requires '|' !in a && a <= s && n < |s| && s[n] == '|'
    ensures |a| <= n
  {
    assert forall i :: 0 <= i < |a| ==> a[i] in a && s[i] == a[i];
  }

  // ----- one page -------------------------------------------------------------------------

  datatype Order = NewestFirst | OldestFirst

  /** a comes strictly before b. */
  predicate Comes(order: Order, a: Key, b: Key) {
    match order
    case OldestFirst => a.at < b.at || (a.at == b.at && Less(a.id, b.id))
    case NewestFirst => b.at < a.at || (a.at == b.at && Less(b.id, a.id))
  }

  function By(order: Order): (Entry, Entry) -> bool { (a: Entry, b: Entry) => Comes(order, a.key, b.key) }

  /** The rows a query selects: they match, and they come after the cursor. */
  function Beyond(order: Order, where: Entry -> bool, cursor: Option<Key>): Entry -> bool {
    (e: Entry) => where(e) && (cursor.None? || Comes(order, cursor.value, e.key))
  }

  /** SELECT ... WHERE ... ORDER BY, without its LIMIT. */
  function Select(table: seq<Entry>, order: Order, where: Entry -> bool, cursor: Option<Key>): seq<Entry> {
    Sort(Filter(table, Beyond(order, where, cursor)), By(order))
  }

  function Take<T>(s: seq<T>, n: nat): seq<T> { if |s| <= n then s else s[..n] }

  datatype Page = Page(items: seq<Entry>, next: string)

  /** One row more than the limit tells that there is a next page. */
  function PageOf(items: seq<Entry>, limit: nat): Page
    requires limit > 0
  {
    if |items| > limit then Page(items[..limit], EncodeCursor(items[limit - 1].key)) else Page(items, "")
  }

  /** The cursor a request carries: none, one, or a malformed one. */
  datatype Where = Everything | From(key: Key) | BadCursor

  function CursorWhere(text: string): Where {
    if TrimSpace(text) == "" then Everything
    else
      match DecodeCursor(text)
      case None => BadCursor
      case Some(k) => From(k)
  }

  function ListPage(table: seq<Entry>, order: Order, where: Entry -> bool, limit: int, text: string): Option<Page> {
    var n := ClampLimit(limit);
    match CursorWhere(text)
    case BadCursor => None
    case Everything => Some(PageOf(Take(Select(table, order, where, None), n + 1), n))
    case From(k) => Some(PageOf(Take(Select(table, order, where, Some(k)), n + 1), n))
  }

  // ----- the order ---------------------------------------------------------------------------

  lemma ComesTotal(order: Order, a: Key, b: Key)
    ensures !(Comes(order, a, b) && Comes(order, b, a))
    ensures a != b <==> Comes(order, a, b) || Comes(order, b, a)
  {
    LessTotal(a.id, b.id);
    hide Less;
  }

  lemma ComesTransitive(order: Order, a: Key, b: Key, c: Key)
    requires Comes(order, a, b) && Comes(order, b, c)
    ensures Comes(order, a, c)
  {
    if order == OldestFirst {
      if Less(a.id, b.id) && Less(b.id, c.id) { LessTransitive(a.id, b.id, c.id); }
    } else {
      if Less(c.id, b.id) && Less(b.id, a.id) { LessTransitive(c.id, b.id, a.id); }
    }
    hide Less;
  }

  lemma ByIsOrder(order: Order)
    ensures WeakOrder(By(order))
  {
    forall x: Entry, y: Entry ensures By(order)(x, y) ==> !By(order)(y, x) {
      ComesTotal(order, x.key, y.key);
    }
    forall x: Entry, y: Entry, z: Entry | By(order)(x, y) && By(order)(y, z) ensures By(order)(x, z) {
      ComesTransitive(order, x.key, y.key, z.key);
    }
    forall x: Entry, y: Entry, z: Entry | By(order)(x, z) ensures By(order)(x, y) || By(order)(y, z) {
      ComesTotal(order, x.key, y.key);
      ComesTotal(order, y.key, z.key);
      if !By(order)(x, y) && x.key != y.key {
        ComesTransitive(order, y.key, x.key, z.key);
      }
    }
  }

  /** Ids are the primary key. */
  ghost predicate UniqueIds(table: seq<Entry>) {
    forall i, j :: 0 <= i < j < |table| ==> table[i].key.id != table[j].key.id
  }

  // ----- what a query selects ----------------------------------------------------------------

  ghost predicate Strict(all: seq<Entry>, order: Order) {
    forall i, j :: 0 <= i < j < |all| ==> Comes(order, all[i].key, all[j].key)
  }

  /** The matching rows beyond the cursor, each as often as in the table, in strict order. */
  lemma SelectMeans(table: seq<Entry>, order: Order, where: Entry -> bool, cursor: Option<Key>)
    requires UniqueIds(table)
    ensures var all, p := Select(table, order, where, cursor), Beyond(order, where, cursor);
            && (forall e :: e in all <==> e in table && p(e))
            && (forall e :: multiset(all)[e] == if p(e) then multiset(table)[e] else 0)
            && Strict(all, order)
  {
    var p := Beyond(order, where, cursor);
    var kept := Filter(table, p);
    var all := Select(table, order, where, cursor);
    ByIsOrder(order);
    SortMultiset(kept, By(order));
    SortSorts(kept, By(order));
    hide Beyond, UniqueIds;
    forall e ensures multiset(all)[e] == if p(e) then multiset(table)[e] else 0 {
      FilterCount(table, p, e);
    }
    forall e ensures e in all <==> e in table && p(e) {
      assert e in multiset(all) <==> e in all;
      assert e in multiset(table) <==> e in table;
    }
    SortedStrictly(table, all, order);
  }

  lemma SortedStrictly(table: seq<Entry>, all: seq<Entry>, order: Order)
    requires UniqueIds(table) && Sorted(all, By(order)) && multiset(all) <= multiset(table)
    ensures Strict(all, order)
  {
    forall i, j | 0 <= i < j < |all| ensures Comes(order, all[i].key, all[j].key) {
      DifferentKeys(table, all, i, j);
      ComesTotal(order, all[i].key, all[j].key);
      assert !By(order)(all[j], all[i]);
    }
  }

  lemma DifferentKeys(table: seq<Entry>, all: seq<Entry>, i: nat, j: nat)
    requires UniqueIds(table) && multiset(all) <= multiset(table) && i < j < |all|
    ensures all[i].key.id != all[j].key.id
  {
    assert all[i] in multiset(all) && all[j] in multiset(all);
    if all[i] == all[j] {
      TwiceCounts(all, i, j);
      UniqueCounts(table, all[i]);
    }
    assert all[i] in multiset(table) && all[j] in multiset(table);
    var m :| 0 <= m < |table| && table[m] == all[i];
    var n :| 0 <= n < |table| && table[n] == all[j];
  }

  lemma TwiceCounts(s: seq<Entry>, i: nat, j: nat)
    requires i < j < |s| && s[i] == s[j]
    ensures multiset(s)[s[i]] >= 2
  {
    assert s == s[..j] + s[j..];
    assert s[..j][i] == s[i] && s[j..][0] == s[i];
    assert s[i] in multiset(s[..j]) && s[i] in multiset(s[j..]);
  }

  lemma {:induction false} UniqueCounts(table: seq<Entry>, e: Entry)
    requires UniqueIds(table)
    ensures multiset(table)[e] <= 1
    decreases |table|
  {
    if table != [] {
      var front, last := table[..|table| - 1], table[|table| - 1];
      assert table == front + [last];
      UniqueCounts(front, e);
      if last == e {
        assert e !in front;
        assert e !in multiset(front);
      }
    }
  }

  /** The full scan. */
  function Scan(table: seq<Entry>, order: Order, where: Entry -> bool): seq<Entry> { Select(table, order, where, None) }

  /** It holds every matching row once, strictly in order. */
  lemma ScanIsSorted(table: seq<Entry>, order: Order, where: Entry -> bool)
    requires UniqueIds(table)
    ensures var all := Scan(table, order, where);
            && (forall e :: e in all <==> e in table && where(e))
            && (forall e :: multiset(all)[e] <= 1)
            && Strict(all, order)
  {
    SelectMeans(table, order, where, None);
    forall e ensures multiset(Scan(table, order, where))[e] <= 1 {
      UniqueCounts(table, e);
    }
  }

  // ----- strictly ordered lists -----------------------------------------------------------------

  lemma StrictConcat(a: seq<Entry>, b: seq<Entry>, order: Order)
    requires Strict(a, order) && Strict(b, order)
    requires a != [] ==> forall e <- b :: Comes(order, a[|a| - 1].key, e.key)
    ensures Strict(a + b, order)
  {
    hide Comes;
    var all := a + b;
    forall i, j | 0 <= i < j < |all| ensures Comes(order, all[i].key, all[j].key) {
      if i < |a| <= j {
        assert b[j - |a|] in b;
        if i < |a| - 1 {
          ComesTransitive(order, a[i].key, a[|a| - 1].key, all[j].key);
        }
      }
    }
  }

  lemma StrictTail(a: seq<Entry>, order: Order)
    requires a != [] && Strict(a, order)
    ensures Strict(a[1..], order) && forall e :: e in a[1..] <==> e in a && e != a[0]
  {
    hide Comes;
    assert a == [a[0]] + a[1..];
    forall e | e in a[1..] ensures e != a[0] {
      var i :| 0 <= i < |a[1..]| && a[1..][i] == e;
      assert Comes(order, a[0].key, a[i + 1].key);
      ComesTotal(order, a[0].key, e.key);
    }
  }

  /** A strictly ordered list is determined by its elements. */
  lemma {:induction false} StrictDetermined(a: seq<Entry>, b: seq<Entry>, order: Order)
    requires Strict(a, order) && Strict(b, order) && forall e :: e in a <==> e in b
    ensures a == b
    decreases |a|
  {
    hide Comes;
    assert |a| > 0 ==> a[0] in a;
    assert |b| > 0 ==> b[0] in b;
    if |a| > 0 {
      StrictHeads(a, b, order);
      StrictTail(a, order);
      StrictTail(b, order);
      hide Strict;
      StrictDetermined(a[1..], b[1..], order);
      assert a == [a[0]] + a[1..] && b == [b[0]] + b[1..];
    }
  }

  lemma StrictHeads(a: seq<Entry>, b: seq<Entry>, order: Order)
    requires Strict(a, order) && Strict(b, order) && a != [] && b != []
    requires a[0] in b && b[0] in a
    ensures a[0] == b[0]
  {
    hide Comes;
    HeadFirst(a, order, b[0]);
    HeadFirst(b, order, a[0]);
    ComesTotal(order, a[0].key, b[0].key);
  }

  lemma HeadFirst(a: seq<Entry>, order: Order, e: Entry)
    requires Strict(a, order) && e in a
    ensures a[0] == e || Comes(order, a[0].key, e.key)
  {
    hide Comes;
    var i :| 0 <= i < |a| && a[i] == e;
  }

  lemma {:induction false} FilterStrict(a: seq<Entry>, order: Order, p: Entry -> bool)
    requires Strict(a, order)
    ensures Strict(Filter(a, p), order) && forall e :: e in Filter(a, p) <==> e in a && p(e)
  {
    if |a| > 0 {
      StrictTail(a, order);
      hide Comes;
      FilterStrict(a[1..], order, p);
      var rest := Filter(a[1..], p);
      forall e | e in rest ensures Comes(order, a[0].key, e.key) {
        var i :| 0 <= i < |a[1..]| && a[1..][i] == e;
        assert Comes(order, a[0].key, a[i + 1].key);
      }
      StrictConcat([a[0]], rest, order);
    }
  }

  // ----- a table that grows while it is paged ----------------------------------------------------

  /** The rows present at the start are all still there; rows may have appeared anywhere,
      from among those the table will ever hold. */
  ghost predicate GrownFrom(start: seq<Entry>, table: seq<Entry>, universe: seq<Entry>) {
    UniqueIds(table) && (forall e <- start :: e in table) && (forall e <- table :: e in universe)
  }

  /** What the loop has read so far, up to the cursor. */
  ghost predicate ReadUpTo(start: seq<Entry>, universe: seq<Entry>, order: Order, where: Entry -> bool, rows: seq<Entry>, cursor: Option<Key>) {
    && Strict(rows, order) && (forall e <- rows :: e in universe && where(e))
    && (if cursor.None? then rows == [] else rows != [] && cursor.value == rows[|rows| - 1].key)
    && (forall e <- start :: where(e) ==> e in rows || Beyond(order, where, cursor)(e))
  }

  /** The whole answer: matching rows in strict order, every one of the start among them. */
  ghost predicate Complete(start: seq<Entry>, universe: seq<Entry>, order: Order, where: Entry -> bool, rows: seq<Entry>) {
    Strict(rows, order) && (forall e <- rows :: e in universe && where(e)) && (forall e <- start :: where(e) ==> e in rows)
  }

  /** The rows the loop may still meet. */
  ghost function Ahead(universe: seq<Entry>, order: Order, where: Entry -> bool, cursor: Option<Key>): set<Entry> {
    set e | e in universe && Beyond(order, where, cursor)(e)
  }

  lemma Selected(start: seq<Entry>, table: seq<Entry>, universe: seq<Entry>, order: Order, where: Entry -> bool, rows: seq<Entry>, cursor: Option<Key>)
    requires GrownFrom(start, table, universe) && ReadUpTo(start, universe, order, where, rows, cursor)
    ensures var all := Select(table, order, where, cursor);
            Strict(rows + all, order) && Complete(start, universe, order, where, rows + all)
  {
    SelectMeans(table, order, where, cursor);
    hide Comes, Select, UniqueIds;
    var all := Select(table, order, where, cursor);
    StrictConcat(rows, all, order);
  }

  /** When there is a next page, the loop goes on from the last row of this one, with fewer
      rows ahead. */
  lemma NextPage(start: seq<Entry>, table: seq<Entry>, universe: seq<Entry>, order: Order, where: Entry -> bool, rows: seq<Entry>, cursor: Option<Key>, n: nat)
    requires GrownFrom(start, table, universe) && ReadUpTo(start, universe, order, where, rows, cursor)
    requires 0 < n < |Select(table, order, where, cursor)|
    ensures var items := Select(table, order, where, cursor)[..n];
            var next := Some(items[n - 1].key);
            && ReadUpTo(start, universe, order, where, rows + items, next)
            && |Ahead(universe, order, where, next)| < |Ahead(universe, order, where, cursor)|
  {
    var all := Select(table, order, where, cursor);
    var items, last := all[..n], all[n - 1];
    SelectMeans(table, order, where, cursor);
    assert last in all && items[n - 1] == last;
    FewerAhead(universe, order, where, cursor, last);
    Selected(start, table, universe, order, where, rows, cursor);
    hide Select, GrownFrom, Ahead;
    ReadOn(start, universe, order, where, rows, all, n);
  }

  /** Of a complete answer rows + all, the part up to the n-th of all is read up to it. */
  lemma ReadOn(start: seq<Entry>, universe: seq<Entry>, order: Order, where: Entry -> bool, rows: seq<Entry>, all: seq<Entry>, n: nat)
    requires Complete(start, universe, order, where, rows + all) && 0 < n < |all|
    ensures ReadUpTo(start, universe, order, where, rows + all[..n], Some(all[n - 1].key))
  {
    hide Comes;
    var whole, part, last := rows + all, rows + all[..n], all[n - 1];
    assert part == whole[..|rows| + n] && part[|part| - 1] == last;
    forall e | e in part ensures e in whole {
    }
    forall e | e in start && where(e) ensures e in part || Beyond(order, where, Some(last.key))(e) {
      var i :| 0 <= i < |whole| && whole[i] == e;
      if i < |rows| + n {
        assert part[i] == e;
      } else {
        assert whole[|rows| + n - 1] == last;
      }
    }
  }

  lemma FewerAhead(universe: seq<Entry>, order: Order, where: Entry -> bool, cursor: Option<Key>, last: Entry)
    requires last in universe && Beyond(order, where, cursor)(last)
    ensures |Ahead(universe, order, where, Some(last.key))| < |Ahead(universe, order, where, cursor)|
  {
    hide Comes;
    var now, later := Ahead(universe, order, where, cursor), Ahead(universe, order, where, Some(last.key));
    ComesTotal(order, last.key, last.key);
    forall e | e in later ensures e in now {
      if cursor.Some? {
        ComesTransitive(order, cursor.value, last.key, e.key);
      }
    }
    assert last in now && last !in later;
    assert now == later + (now - later);
  }

  /** Of a complete answer, the rows of the start are the full scan of the start. */
  lemma CompleteHoldsScan(start: seq<Entry>, universe: seq<Entry>, order: Order, where: Entry -> bool, rows: seq<Entry>)
    requires UniqueIds(start) && Complete(start, universe, order, where, rows)
    ensures Filter(rows, (e: Entry) => e in start) == Scan(start, order, where)
  {
    ScanIsSorted(start, order, where);
    FilterStrict(rows, order, (e: Entry) => e in start);
    hide Scan, Strict;
    StrictDetermined(Filter(rows, (e: Entry) => e in start), Scan(start, order, where), order);
  }

  // ----- rows that only appear in front --------------------------------------------------------

  /** Every new row comes before all rows of the start, as newer rows do newest first. */
  ghost predicate OnlyInFront(start: seq<Entry>, table: seq<Entry>, order: Order) {
    forall e, r :: e in table && e !in start && r in start ==> Comes(order, e.key, r.key)
  }

  ghost predicate AllIn(rows: seq<Entry>, start: seq<Entry>) { forall e <- rows :: e in start }

  /** Beyond a row of the start no new row is selected. */
  lemma NothingNewBeyond(start: seq<Entry>, table: seq<Entry>, order: Order, where: Entry -> bool, r: Entry)
    requires UniqueIds(table) && OnlyInFront(start, table, order) && r in start
    ensures AllIn(Select(table, order, where, Some(r.key)), start)
  {
    SelectMeans(table, order, where, Some(r.key));
    hide Comes, Select, UniqueIds;
    forall e | e in Select(table, order, where, Some(r.key)) ensures e in start {
      ComesTotal(order, r.key, e.key);
    }
  }

  // ----- the loop ------------------------------------------------------------------------------------

  /** The cursor of a request, as text. */
  function CursorText(cursor: Option<Key>): string {
    match cursor case None => "" case Some(k) => EncodeCursor(k)
  }

  /** One request: the first rows beyond the cursor, and a next page exactly when there are
      more. */
  lemma PageAfter(table: seq<Entry>, order: Order, where: Entry -> bool, limit: int, cursor: Option<Key>)
    requires cursor.Some? ==> Carried(cursor.value.id)
    ensures var all, n := Select(table, order, where, cursor), ClampLimit(limit);
            ListPage(table, order, where, limit, CursorText(cursor)) ==
            Some(if |all| <= n then Page(all, "") else Page(all[..n], EncodeCursor(all[n - 1].key)))
    ensures forall k :: EncodeCursor(k) != ""
  {
    forall k ensures EncodeCursor(k) != "" {
      CursorNotEmpty(k);
    }
    hide EncodeCursor, DecodeCursor, TrimSpace, Select, Beyond, ClampLimit, CursorWhere, PageOf, Take;
    TakePage(Select(table, order, where, cursor), ClampLimit(limit));
    if cursor.None? {
      EmptyCursor();
    } else {
      CursorRoundTrip(cursor.value);
      CursorIsText(cursor.value);
    }
  }

  lemma TakePage(all: seq<Entry>, n: nat)
    requires n > 0
    ensures PageOf(Take(all, n + 1), n) == if |all| <= n then Page(all, "") else Page(all[..n], EncodeCursor(all[n - 1].key))
  {
    hide EncodeCursor;
    if |all| > n {
      assert Take(all, n + 1)[..n] == all[..n];
    }
  }

  lemma EmptyCursor()
    ensures CursorWhere("") == Everything
  {
  }

  lemma CursorIsText(k: Key)
    requires DecodeCursor(EncodeCursor(k)) == Some(k)
    ensures CursorWhere(EncodeCursor(k)) == From(k)
  {
    hide Cut, ParseInt;
  }

  lemma CursorNotEmpty(k: Key)
    ensures EncodeCursor(k) != ""
  {
  }

  lemma NothingRead(start: seq<Entry>, universe: seq<Entry>, order: Order, where: Entry -> bool)
    ensures ReadUpTo(start, universe, order, where, [], None) && AllIn([], start)
  {
  }

  lemma CursorIsCarried(start: seq<Entry>, universe: seq<Entry>, order: Order, where: Entry -> bool, rows: seq<Entry>, cursor: Option<Key>)
    requires ReadUpTo(start, universe, order, where, rows, cursor) && forall e <- universe :: Carried(e.key.id)
    ensures cursor.Some? ==> Carried(cursor.value.id)
  {
    hide Carried;
    if cursor.Some? {
      assert rows[|rows| - 1] in universe;
    }
  }

  /** In front of the start nothing new is ever read. */
  lemma StaysInStart(start: seq<Entry>, table: seq<Entry>, universe: seq<Entry>, order: Order, where: Entry -> bool, rows: seq<Entry>, cursor: Option<Key>)
    requires GrownFrom(start, table, universe) && OnlyInFront(start, table, order) && (cursor.None? ==> AllIn(table, start))
    requires ReadUpTo(start, universe, order, where, rows, cursor) && AllIn(rows, start)
    ensures AllIn(Select(table, order, where, cursor), start)
  {
    if cursor.None? {
      SelectMeans(table, order, where, cursor);
    } else {
      assert rows[|rows| - 1] in start;
      NothingNewBeyond(start, table, order, where, rows[|rows| - 1]);
    }
  }

  lemma AllInConcat(a: seq<Entry>, b: seq<Entry>, n: nat, start: seq<Entry>)
    requires AllIn(a, start) && AllIn(b, start)
    ensures AllIn(a + b, start) && (n <= |b| ==> AllIn(a + b[..n], start))
  {
    assert forall e :: e in a + b <==> e in a || e in b;
    if n <= |b| {
      assert forall e :: e in b[..n] ==> e in b;
      assert forall e :: e in a + b[..n] <==> e in a || e in b[..n];
    }
  }

  lemma FinalAnswer(start: seq<Entry>, universe: seq<Entry>, order: Order, where: Entry -> bool, rows: seq<Entry>)
    requires UniqueIds(start) && Complete(start, universe, order, where, rows)
    ensures Strict(rows, order) && forall e <- rows :: e in universe && where(e)
    ensures Filter(rows, (e: Entry) => e in start) == Scan(start, order, where)
    ensures AllIn(rows, start) ==> rows == Scan(start, order, where)
  {
    CompleteHoldsScan(start, universe, order, where, rows);
    if AllIn(rows, start) {
      FilterAll(rows, (e: Entry) => e in start);
    }
  }

  /** The cursor loop, over a table that may have grown by the i-th request. It ends; the
      answer is in strict order, holds only matching rows, and of the rows present at the
      start it holds exactly the full scan. When new rows only appear in front of them, the
      answer is the full scan of the start and nothing else. */
  method ListAll(ghost start: seq<Entry>, ghost universe: seq<Entry>, tables: nat -> seq<Entry>, order: Order, where: Entry -> bool, limit: int)
    returns (out: Option<seq<Entry>>)
    requires UniqueIds(start) && (forall e <- universe :: Carried(e.key.id))
    requires forall i :: GrownFrom(start, tables(i), universe)
    ensures out.Some? && Strict(out.value, order) && forall e <- out.value :: e in universe && where(e)
    ensures Filter(out.value, (e: Entry) => e in start) == Scan(start, order, where)
    ensures AllIn(tables(0), start) && (forall i :: OnlyInFront(start, tables(i), order)) ==> out.value == Scan(start, order, where)
  {
    hide ListPage, Select, Scan, UniqueIds, Carried, ClampLimit, ReadUpTo, Complete, OnlyInFront, AllIn, EncodeCursor, Strict, Ahead, GrownFrom;
    ghost var front := AllIn(tables(0), start) && forall i :: OnlyInFront(start, tables(i), order);
    var rows: seq<Entry> := [];
    var text, i := "", 0;
    ghost var cursor: Option<Key> := None;
    NothingRead(start, universe, order, where);
    while true
      invariant ReadUpTo(start, universe, order, where, rows, cursor) && text == CursorText(cursor)
      invariant front ==> AllIn(rows, start)
      invariant i == 0 <==> cursor.None?
      decreases |Ahead(universe, order, where, cursor)|
    {
      assert GrownFrom(start, tables(i), universe);
      CursorIsCarried(start, universe, order, where, rows, cursor);
      PageAfter(tables(i), order, where, limit, cursor);
      ghost var before, all, n := rows, Select(tables(i), order, where, cursor), ClampLimit(limit);
      if front {
        assert OnlyInFront(start, tables(i), order);
        StaysInStart(start, tables(i), universe, order, where, rows, cursor);
        AllInConcat(rows, all, n, start);
      }
      var page := ListPage(tables(i), order, where, limit, text);
      if page.None? {
        return None;
      }
      rows := rows + page.value.items;
      if page.value.next == "" {
        Selected(start, tables(i), universe, order, where, before, cursor);
        FinalAnswer(start, universe, order, where, rows);
        return Some(rows);
      }
      NextPage(start, tables(i), universe, order, where, before, cursor, n);
      text := page.value.next;
      cursor := Some(all[n - 1].key);
      i := i + 1;
    }
  }

  // ----- the edges of a page ---------------------------------------------------------------------------

  /** A page holds 50 rows when no number is asked for, and never more than 200. */
  lemma PageSizes(n: int)
    ensures ClampLimit(n) == if n <= 0 then 50 else if n > 200 then 200 else n
  {
  }

  /** A blank cursor is the start, and one that does not parse is an error. */
  lemma CursorsRead(table: seq<Entry>, order: Order, where: Entry -> bool, limit: int, text: string)
    ensures Blank(text) ==> ListPage(table, order, where, limit, text) == ListPage(table, order, where, limit, "")
    ensures !Blank(text) ==> (ListPage(table, order, where, limit, text).None? <==> forall k :: DecodeCursor(text) != Some(k))
  {
    hide TrimSpace, Select, DecodeCursor;
    BlankIff(text);
    BlankIff("");
  }

  /** A cursor is read when a number, a bar and an id are between the white space at its
      ends, and in no other case. */
  lemma DecodeCursorIff(text: string, k: Key)
    ensures DecodeCursor(text) == Some(k) <==>
            exists pre, nanos, post :: Around(text, pre, nanos + "|" + k.id, post) && ParseInt(nanos) == Some(k.at) && k.id != "" && '|' !in nanos
  {
    hide TrimSpace, ParseInt;
    var pre, post := TrimSpaceMeans(text);
    var raw := TrimSpace(text);
    var (nanos, id, ok) := Cut(raw, '|');
    if DecodeCursor(text) == Some(k) {
      assert raw == nanos + "|" + k.id;
    }
    if pre', nanos', post' :| Around(text, pre', nanos' + "|" + k.id, post') && ParseInt(nanos') == Some(k.at) && k.id != "" && '|' !in nanos' {
      TrimSpaceOf(pre', nanos' + "|" + k.id, post');
      CutAt(nanos', '|', k.id);
    }
  }
}
