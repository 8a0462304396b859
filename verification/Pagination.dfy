/** Cursor pages (src/common/api/pagination.ts) over the keyset query of a chat
    (src/modules/chat/chat.repository.ts). An encoded cursor is represented by the payload
    that decodes from it. Timestamps and ids are numbers, compared as the database does. */
module Pagination {
  import opened Wrappers

  const DEFAULT_LIMIT := 20
  const MAX_LIMIT := 100

  // ---------------------------------------------------------------- limits and pages

  /** A JavaScript number as far as `Number.isFinite` and `Math.trunc` can tell. */
  datatype JsNumber = Finite(value: real) | NotFinite

  datatype Page<+T, +C> = Page(items: seq<T>, hasMore: bool, nextCursor: Option<C>)

  function NormalizedLimit(requested: Option<JsNumber>): (limit: nat)
    ensures limit <= MAX_LIMIT
  {
    match requested
    case Some(Finite(x)) =>
      if x > 0.0 then (if x.Floor < MAX_LIMIT then x.Floor else MAX_LIMIT) else DEFAULT_LIMIT
    case Some(NotFinite) => DEFAULT_LIMIT
    case None => DEFAULT_LIMIT
  }

  /** A limit of zero, with which no page ever moves on, slips through for the fractions
      below one and for nothing else. */
  lemma LimitIsPositive(requested: Option<JsNumber>)
    ensures NormalizedLimit(requested) >= 1
       <==> !(requested.Some? && requested.value.Finite? && 0.0 < requested.value.value < 1.0)
  {
    if requested.Some? && requested.value.Finite? {
      var x := requested.value.value;
      assert x > 0.0 ==> (x.Floor == 0 <==> x < 1.0);
    }
  }

  /** What the limit is: what was asked for, whole and at most 100, or else 20. */
  lemma LimitIs(requested: Option<JsNumber>)
    ensures
      var limit := NormalizedLimit(requested);
      if requested.Some? && requested.value.Finite? && requested.value.value > 0.0 then
        var x := requested.value.value;
        if x >= 100.0 then limit == 100 else limit as real <= x < limit as real + 1.0
      else limit == 20
  {}

  function CreateCursorPage<T, C>(rows: seq<T>, limit: nat, cursorForItem: T -> C): Page<T, C> {
    var items := if |rows| <= limit then rows else rows[..limit];
    var hasMore := |rows| > limit;
    Page(items, hasMore, if hasMore && items != [] then Some(cursorForItem(items[|items| - 1])) else None)
  }

  // ---------------------------------------------------------------- the keyset query

  datatype Message = Message(id: nat, batchId: nat, createdAt: int, senderUserId: nat, body: string)

  /** What a cursor decodes to; a missing or non-text field reads as None. */
  datatype Cursor = Cursor(createdAt: Option<int>, id: Option<nat>)

  predicate Newer(a: Message, b: Message) {
    a.createdAt > b.createdAt || (a.createdAt == b.createdAt && a.id > b.id)
  }

  function CursorFor(m: Message): Cursor {
    Cursor(Some(m.createdAt), Some(m.id))
  }

  /** `createdAt is null or (created_at, id) < (createdAt, id)`, where comparing with a null
      id is never true on equal timestamps. */
  predicate Before(m: Message, c: Option<Cursor>) {
    c.None? || c.value.createdAt.None? ||
    m.createdAt < c.value.createdAt.value ||
    (m.createdAt == c.value.createdAt.value && c.value.id.Some? && m.id < c.value.id.value)
  }

  function Matching(table: set<Message>, batchId: nat, c: Option<Cursor>): set<Message> {
    set m | m in table && m.batchId == batchId && Before(m, c)
  }

  ghost predicate DistinctIds(table: set<Message>) {
    forall a, b :: a in table && b in table && a.id == b.id ==> a == b
  }

  ghost predicate Descending(rows: seq<Message>) {
    forall i, j :: 0 <= i < j < |rows| ==> Newer(rows[i], rows[j])
  }

  ghost predicate IsNewest(m: Message, s: set<Message>) {
    m in s && forall x :: x in s && x != m ==> Newer(m, x)
  }

  lemma {:induction false} NewestExists(s: set<Message>)
    requires DistinctIds(s) && s != {}
    ensures exists m :: IsNewest(m, s)
    decreases s
  {
    var m :| m in s;
    var rest := s - {m};
    if rest == {} {
      assert s == {m};
      assert IsNewest(m, s);
    } else {
      NewestExists(rest);
      var n :| IsNewest(n, rest);
      assert m.id != n.id;
      var top := if Newer(m, n) then m else n;
      forall x | x in s && x != top ensures Newer(top, x) {
        if x != m && x != n {
          assert x in rest && Newer(n, x);
        }
      }
      assert IsNewest(top, s);
    }
  }

  /** `order by created_at desc, id desc`. */
  ghost function OrderedRows(s: set<Message>): seq<Message>
    requires DistinctIds(s)
    decreases s
  {
    if s == {} then []
    else
      NewestExists(s);
      var m :| IsNewest(m, s);
      [m] + OrderedRows(s - {m})
  }

  lemma {:induction false} OrderedRowsAreOrdered(s: set<Message>)
    requires DistinctIds(s)
    ensures Descending(OrderedRows(s))
    ensures forall m :: m in OrderedRows(s) <==> m in s
    ensures |OrderedRows(s)| == |s|
    decreases s
  {
    if s != {} {
      NewestExists(s);
      var rows := OrderedRows(s);
      var m := rows[0];
      assert IsNewest(m, s) && rows == [m] + OrderedRows(s - {m});
      OrderedRowsAreOrdered(s - {m});
      forall i, j | 0 <= i < j < |rows| ensures Newer(rows[i], rows[j]) {
        var x := OrderedRows(s - {m})[j - 1];
        assert x in s - {m};
        if i > 0 {
          assert Newer(OrderedRows(s - {m})[i - 1], x);
        }
      }
    }
  }

  /** A set has one descending order only. */
  lemma {:induction false} DescendingIsUnique(a: seq<Message>, b: seq<Message>)
    requires Descending(a) && Descending(b)
    requires forall m :: m in a <==> m in b
    ensures a == b
    decreases |a|
  {
    if a != [] || b != [] {
      if a != [] {
        assert a[0] in b;
      }
      assert b[0] in a;
      assert a[0] == b[0] by {
        var i :| 0 <= i < |b| && b[i] == a[0];
        var j :| 0 <= j < |a| && a[j] == b[0];
      }
      forall m ensures m in a[1..] <==> m in b[1..] {
        if m in a[1..] {
          assert m in a && m in b;
          assert m != a[0];
        }
        if m in b[1..] {
          assert m in b && m in a;
          assert m != b[0];
        }
      }
      DescendingIsUnique(a[1..], b[1..]);
      assert a == [a[0]] + a[1..] && b == [b[0]] + b[1..];
    }
  }

  lemma TailMember(rows: seq<Message>, k: nat, m: Message)
    requires Descending(rows) && k <= |rows|
    ensures m in rows[k..] <==> m in rows && m !in rows[..k]
  {
    if m in rows {
      var i :| 0 <= i < |rows| && rows[i] == m;
      if i < k {
        assert rows[..k][i] == m;
        assert forall j :: k <= j < |rows| ==> Newer(rows[i], rows[j]);
      } else {
        assert rows[k..][i - k] == m;
        assert forall j :: 0 <= j < k ==> Newer(rows[j], rows[i]);
      }
    }
  }

  /** What is left when the first k rows are taken away comes in the order it had. */
  lemma TailIsOrdered(s: set<Message>, t: set<Message>, k: nat)
    requires DistinctIds(s) && DistinctIds(t) && k <= |OrderedRows(s)|
    requires forall m :: m in t <==> m in s && m !in OrderedRows(s)[..k]
    ensures OrderedRows(t) == OrderedRows(s)[k..]
  {
    OrderedRowsAreOrdered(s);
    OrderedRowsAreOrdered(t);
    var rows, tail := OrderedRows(s), OrderedRows(t);
    forall m ensures m in tail <==> m in rows[k..] {
      TailMember(rows, k, m);
    }
    DescendingIsUnique(tail, rows[k..]);
  }

  ghost function ListMessages(table: set<Message>, batchId: nat, c: Option<Cursor>, limit: nat): Page<Message, Cursor>
    requires DistinctIds(table)
  {
    var rows := OrderedRows(Matching(table, batchId, c));
    CreateCursorPage(if |rows| <= limit + 1 then rows else rows[..limit + 1], limit, CursorFor)
  }

  /** What one page is: the newest `limit` rows before the cursor, with more to come exactly
      when some are left over. */
  lemma PageIsPrefix(table: set<Message>, batchId: nat, c: Option<Cursor>, limit: nat)
    requires DistinctIds(table)
    ensures
      var page := ListMessages(table, batchId, c, limit);
      var rows := OrderedRows(Matching(table, batchId, c));
      && (page.hasMore <==> |Matching(table, batchId, c)| > limit)
      && |rows| == |Matching(table, batchId, c)|
      && page.items == (if page.hasMore then rows[..limit] else rows)
      && page.nextCursor == (if page.hasMore && limit >= 1 then Some(CursorFor(rows[limit - 1])) else None)
  {
    OrderedRowsAreOrdered(Matching(table, batchId, c));
  }

  /** The k-th row splits an ordered set into itself and what precedes it, and the rows it
      is newer than. */
  lemma RowSplits(s: set<Message>, k: nat, m: Message)
    requires DistinctIds(s) && 1 <= k <= |OrderedRows(s)| && m in s
    ensures Newer(OrderedRows(s)[k - 1], m) <==> m !in OrderedRows(s)[..k]
  {
    OrderedRowsAreOrdered(s);
    var rows := OrderedRows(s);
    var i :| 0 <= i < |rows| && rows[i] == m;
    if i < k {
      assert m in rows[..k];
      assert i == k - 1 || Newer(rows[i], rows[k - 1]);
    } else {
      assert Newer(rows[k - 1], rows[i]);
      assert forall j :: 0 <= j < k ==> Newer(rows[j], rows[i]);
    }
  }

  lemma CursorSplits(table: set<Message>, batchId: nat, c: Option<Cursor>, last: Message)
    requires last in Matching(table, batchId, c)
    ensures forall m :: m in Matching(table, batchId, Some(CursorFor(last))) <==>
      m in Matching(table, batchId, c) && Newer(last, m)
  {}

  /** The next cursor leaves exactly the rows this page's query matched and did not return. */
  lemma NextPageMatches(table: set<Message>, batchId: nat, c: Option<Cursor>, limit: nat)
    requires DistinctIds(table) && limit >= 1
    requires ListMessages(table, batchId, c, limit).hasMore
    ensures
      var page := ListMessages(table, batchId, c, limit);
      var rest := Matching(table, batchId, page.nextCursor);
      && page.nextCursor.Some?
      && (forall m :: m in rest <==> m in Matching(table, batchId, c) && m !in page.items)
      && |rest| < |Matching(table, batchId, c)|
      && OrderedRows(rest) == OrderedRows(Matching(table, batchId, c))[limit..]
  {
    PageIsPrefix(table, batchId, c, limit);
    var all := Matching(table, batchId, c);
    OrderedRowsAreOrdered(all);
    var last := OrderedRows(all)[limit - 1];
    CursorSplits(table, batchId, c, last);
    forall m | m in all ensures Newer(last, m) <==> m !in OrderedRows(all)[..limit] {
      RowSplits(all, limit, m);
    }
    var rest := Matching(table, batchId, Some(CursorFor(last)));
    TailIsOrdered(all, rest, limit);
    OrderedRowsAreOrdered(rest);
  }

  // ---------------------------------------------------------------- reading a fixed table

  /** Every page from a cursor on, following `nextCursor` while there is more. */
  ghost function AllPages(table: set<Message>, batchId: nat, c: Option<Cursor>, limit: nat): seq<Message>
    requires DistinctIds(table) && limit >= 1
    decreases |Matching(table, batchId, c)|
  {
    var page := ListMessages(table, batchId, c, limit);
    if !page.hasMore then page.items
    else
      NextPageMatches(table, batchId, c, limit);
      page.items + AllPages(table, batchId, page.nextCursor, limit)
  }

  /** Following the cursors ends, and yields the whole table newest first: no row is skipped
      and none comes twice. */
  lemma {:induction false} PagesEnumerateTheTable(table: set<Message>, batchId: nat, c: Option<Cursor>, limit: nat)
    requires DistinctIds(table) && limit >= 1
    ensures AllPages(table, batchId, c, limit) == OrderedRows(Matching(table, batchId, c))
    decreases |Matching(table, batchId, c)|
  {
    var page := ListMessages(table, batchId, c, limit);
    PageIsPrefix(table, batchId, c, limit);
    if page.hasMore {
      NextPageMatches(table, batchId, c, limit);
      PagesEnumerateTheTable(table, batchId, page.nextCursor, limit);
      var rows := OrderedRows(Matching(table, batchId, c));
      assert rows == rows[..limit] + rows[limit..];
    }
  }

  /** Rows that arrive above the cursor while a reader is half-way change nothing below it. */
  lemma InsertsAboveTheCursor(table: set<Message>, added: set<Message>, batchId: nat, c: Option<Cursor>, limit: nat)
    requires DistinctIds(table + added) && limit >= 1
    requires forall m :: m in added && m.batchId == batchId ==> !Before(m, c)
    ensures DistinctIds(table)
    ensures AllPages(table + added, batchId, c, limit) == AllPages(table, batchId, c, limit)
  {
    assert DistinctIds(table);
    PagesEnumerateTheTable(table + added, batchId, c, limit);
    PagesEnumerateTheTable(table, batchId, c, limit);
    assert Matching(table + added, batchId, c) == Matching(table, batchId, c);
  }

  // ---------------------------------------------------------------- reading a growing table

  /** The table as the reader meets it: page k is read from `versions[k]`, and rows are only
      ever added between two pages. */
  ghost predicate Growing(versions: seq<set<Message>>) {
    && (forall k :: 0 <= k < |versions| ==> DistinctIds(versions[k]))
    && (forall i, j :: 0 <= i <= j < |versions| ==> versions[i] <= versions[j])
  }

  datatype Reading = Reading(rows: seq<Message>, complete: bool)

  /** Reads on until a page says there is no more, or the versions run out. */
  ghost function ReadWhileGrowing(versions: seq<set<Message>>, batchId: nat, c: Option<Cursor>, limit: nat): Reading
    requires Growing(versions) && limit >= 1
    decreases |versions|
  {
    if versions == [] then Reading([], false)
    else
      var page := ListMessages(versions[0], batchId, c, limit);
      if !page.hasMore then Reading(page.items, true)
      else
        var later := ReadWhileGrowing(versions[1..], batchId, page.nextCursor, limit);
        Reading(page.items + later.rows, later.complete)
  }

  ghost predicate Appears(m: Message, versions: seq<set<Message>>) {
    exists k :: 0 <= k < |versions| && m in versions[k]
  }

  lemma PageRows(table: set<Message>, batchId: nat, c: Option<Cursor>, limit: nat)
    requires DistinctIds(table) && limit >= 1
    ensures
      var page := ListMessages(table, batchId, c, limit);
      && Descending(page.items)
      && (forall m :: m in page.items ==> m in Matching(table, batchId, c))
      && (page.hasMore ==> page.items != [] && page.nextCursor == Some(CursorFor(page.items[|page.items| - 1])))
  {
    PageIsPrefix(table, batchId, c, limit);
    OrderedRowsAreOrdered(Matching(table, batchId, c));
  }

  /** Whatever is inserted between the pages, a reader meets rows of the chat only, newest
      first, and therefore none of them twice. */
  lemma {:induction false} GrowingTableIsReadInOrder(versions: seq<set<Message>>, batchId: nat, c: Option<Cursor>,
      limit: nat)
    requires Growing(versions) && limit >= 1
    ensures
      var rows := ReadWhileGrowing(versions, batchId, c, limit).rows;
      && Descending(rows)
      && forall m :: m in rows ==> m.batchId == batchId && Before(m, c)
    decreases |versions|
  {
    if versions != [] {
      var page := ListMessages(versions[0], batchId, c, limit);
      PageRows(versions[0], batchId, c, limit);
      if page.hasMore {
        GrowingTableIsReadInOrder(versions[1..], batchId, page.nextCursor, limit);
        LaterPagesAreOlder(page.items, ReadWhileGrowing(versions[1..], batchId, page.nextCursor, limit).rows, c);
      }
    }
  }

  /** Every row it meets was in some version of the table. */
  lemma {:induction false} GrowingTableInventsNothing(versions: seq<set<Message>>, batchId: nat, c: Option<Cursor>,
      limit: nat, m: Message)
    requires Growing(versions) && limit >= 1
    requires m in ReadWhileGrowing(versions, batchId, c, limit).rows
    ensures Appears(m, versions)
    decreases |versions|
  {
    var page := ListMessages(versions[0], batchId, c, limit);
    PageRows(versions[0], batchId, c, limit);
    if m in page.items {
      assert m in versions[0];
    } else {
      var rest := versions[1..];
      GrowingTableInventsNothing(rest, batchId, page.nextCursor, limit, m);
      var k :| 0 <= k < |rest| && m in rest[k];
      assert m in versions[k + 1];
    }
  }

  lemma PageReturnsOrPassesOn(table: set<Message>, batchId: nat, c: Option<Cursor>, limit: nat, m: Message)
    requires DistinctIds(table) && limit >= 1 && m in Matching(table, batchId, c)
    ensures
      var page := ListMessages(table, batchId, c, limit);
      m in page.items || (page.hasMore && m in Matching(table, batchId, page.nextCursor))
  {
    PageIsPrefix(table, batchId, c, limit);
    if ListMessages(table, batchId, c, limit).hasMore {
      NextPageMatches(table, batchId, c, limit);
    } else {
      OrderedRowsAreOrdered(Matching(table, batchId, c));
    }
  }

  /** A reader that reaches the end has met every row that was there when it started. */
  lemma {:induction false} GrowingTableSkipsNothing(versions: seq<set<Message>>, batchId: nat, c: Option<Cursor>,
      limit: nat, m: Message)
    requires Growing(versions) && limit >= 1
    requires ReadWhileGrowing(versions, batchId, c, limit).complete
    requires m in Matching(versions[0], batchId, c)
    ensures m in ReadWhileGrowing(versions, batchId, c, limit).rows
    decreases |versions|
  {
    var table, rest := versions[0], versions[1..];
    var page := ListMessages(table, batchId, c, limit);
    PageReturnsOrPassesOn(table, batchId, c, limit, m);
    if m !in page.items {
      assert rest != [] && table <= rest[0];
      assert m in Matching(rest[0], batchId, page.nextCursor);
      GrowingTableSkipsNothing(rest, batchId, page.nextCursor, limit, m);
    }
  }

  lemma LaterPagesAreOlder(items: seq<Message>, later: seq<Message>, c: Option<Cursor>)
    requires items != [] && Descending(items) && Descending(later)
    requires forall m :: m in items ==> Before(m, c)
    requires forall m :: m in later ==> Before(m, Some(CursorFor(items[|items| - 1])))
    ensures Descending(items + later)
    ensures forall m :: m in later ==> Before(m, c)
  {
    var last := items[|items| - 1];
    forall m | m in later ensures Newer(last, m) && Before(m, c) {
      assert Before(last, c);
    }
    forall i, j | 0 <= i < j < |items + later| ensures Newer((items + later)[i], (items + later)[j]) {
      if i < |items| <= j {
        assert i == |items| - 1 || Newer(items[i], last);
        assert later[j - |items|] in later;
      }
    }
  }

  /** Read from the top, the pages hold exactly the messages of the chat, newest first. */
  lemma PagesHoldTheChat(table: set<Message>, batchId: nat, limit: nat, m: Message)
    requires DistinctIds(table) && limit >= 1
    ensures Descending(AllPages(table, batchId, None, limit))
    ensures m in AllPages(table, batchId, None, limit) <==> m in table && m.batchId == batchId
  {
    PagesEnumerateTheTable(table, batchId, None, limit);
    OrderedRowsAreOrdered(Matching(table, batchId, None));
  }
}
