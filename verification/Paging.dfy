/**
 Browsing memories page by page. The store answers a query in batches of rows after a cursor, newest first; a page
 fetches one row more than it shows, and the last shown row is the next cursor.
 */
module Paging {
  import opened Options
  import opened Sequences

  /** A stored memory: its creation second, and whether the query's SQL filter and its eligibility rule take it. */
  datatype Memory = Memory(id: nat, second: int, selected: bool, eligible: bool)

  const BATCH := 128

  /** Listing order: newer first, then larger id. */
  predicate Before(a: Memory, b: Memory)
  {
    a.second > b.second || (a.second == b.second && a.id > b.id)
  }

  /** The table in listing order. Ids are unique. */
  predicate Ordered(rows: seq<Memory>)
  {
    && (forall i, j | 0 <= i < j < |rows| :: Before(rows[i], rows[j]))
    && (forall i, j | 0 <= i < j < |rows| :: rows[i].id != rows[j].id)
  }

  predicate Passed(m: Memory, cursor: Option<Memory>)
  {
    m.selected && (cursor.None? || Before(cursor.value, m))
  }

  /** The rows a query selects after the cursor, in listing order. */
  function After(rows: seq<Memory>, cursor: Option<Memory>): (r: seq<Memory>)
  {
    if rows == [] then []
    else if Passed(rows[0], cursor) then [rows[0]] + After(rows[1..], cursor)
    else After(rows[1..], cursor)
  }

  function Eligible(rows: seq<Memory>): (r: seq<Memory>)
  {
    if rows == [] then []
    else if rows[0].eligible then [rows[0]] + Eligible(rows[1..])
    else Eligible(rows[1..])
  }

  /** What is still to be shown after the cursor. */
  function View(rows: seq<Memory>, cursor: Option<Memory>): (r: seq<Memory>)
  {
    Eligible(After(rows, cursor))
  }

  lemma {:induction false} EligibleJoin(a: seq<Memory>, b: seq<Memory>)
    ensures Eligible(a + b) == Eligible(a) + Eligible(b)
  {
    if a == [] {
      assert a + b == b;
    } else {
      assert (a + b)[1..] == a[1..] + b && (a + b)[0] == a[0];
      EligibleJoin(a[1..], b);
      assert [a[0]] + (Eligible(a[1..]) + Eligible(b)) == ([a[0]] + Eligible(a[1..])) + Eligible(b);
    }
  }

  lemma {:induction false} AfterMember(rows: seq<Memory>, cursor: Option<Memory>, m: Memory)
    ensures m in After(rows, cursor) <==> m in rows && Passed(m, cursor)
  {
    if rows != [] {
      AfterMember(rows[1..], cursor, m);
    }
  }

  lemma {:induction false} EligibleMember(rows: seq<Memory>, m: Memory)
    ensures m in Eligible(rows) <==> m in rows && m.eligible
  {
    if rows != [] {
      EligibleMember(rows[1..], m);
    }
  }

  lemma OrderedTail(rows: seq<Memory>)
    requires Ordered(rows) && rows != []
    ensures Ordered(rows[1..])
    ensures forall m | m in rows[1..] :: Before(rows[0], m) && !Before(m, rows[0])
  {
    assert forall i | 0 <= i < |rows| - 1 :: rows[1..][i] == rows[i + 1];
  }

  /** Everything in an ordered table comes after a row that comes before its head. */
  lemma {:induction false} AfterEarlier(rows: seq<Memory>, a: Option<Memory>, b: Memory)
    requires forall m | m in rows :: Before(b, m) && (a.Some? ==> Before(a.value, m))
    ensures After(rows, a) == After(rows, Some(b))
  {
    if rows != [] {
      assert rows[0] in rows;
      assert forall m | m in rows[1..] :: m in rows;
      AfterEarlier(rows[1..], a, b);
    }
  }

  /** Just behind its first row, a listing goes on as it would have. */
  lemma AfterHead(rows: seq<Memory>, cursor: Option<Memory>)
    requires Ordered(rows) && rows != [] && Passed(rows[0], cursor)
    ensures After(rows, Some(rows[0])) == After(rows[1..], cursor)
  {
    OrderedTail(rows);
    assert !Passed(rows[0], Some(rows[0]));
    AfterEarlier(rows[1..], cursor, rows[0]);
  }

  /** A cursor on a later row skips the first one. */
  lemma AfterLater(rows: seq<Memory>, x: Memory)
    requires Ordered(rows) && rows != [] && x in rows[1..]
    ensures After(rows, Some(x)) == After(rows[1..], Some(x))
  {
    OrderedTail(rows);
    assert !Passed(rows[0], Some(x));
  }

  lemma BehindFirst(first: Memory, rest: seq<Memory>, k: nat)
    requires 0 < k <= |rest|
    ensures ([first] + rest)[k] == rest[k - 1] && ([first] + rest)[k + 1..] == rest[k..]
  {
  }

  lemma FirstIsGone(first: Memory, rest: seq<Memory>)
    ensures ([first] + rest)[0] == first && ([first] + rest)[1..] == rest
  {
  }

  /** Moving the cursor to a row just read leaves exactly the rows behind it. */
  lemma {:induction false} AfterCursor(rows: seq<Memory>, cursor: Option<Memory>, k: nat)
    requires Ordered(rows) && k < |After(rows, cursor)|
    ensures After(rows, Some(After(rows, cursor)[k])) == After(rows, cursor)[k + 1..]
    decreases rows, 1
  {
    var head, rest := rows[0], After(rows[1..], cursor);
    if !Passed(head, cursor) {
      AfterCursorInTail(rows, cursor, k);
    } else if k == 0 {
      FirstIsGone(head, rest);
      AfterHead(rows, cursor);
    } else {
      BehindFirst(head, rest, k);
      AfterCursorInTail(rows, cursor, k - 1);
    }
  }

  lemma {:induction false} AfterCursorInTail(rows: seq<Memory>, cursor: Option<Memory>, j: nat)
    requires Ordered(rows) && rows != [] && j < |After(rows[1..], cursor)|
    ensures After(rows, Some(After(rows[1..], cursor)[j])) == After(rows[1..], cursor)[j + 1..]
    decreases rows, 0
  {
    var x := After(rows[1..], cursor)[j];
    OrderedTail(rows);
    AfterCursor(rows[1..], cursor, j);
    AfterMember(rows[1..], cursor, x);
    AfterLater(rows, x);
  }

  // ----- one page from the store --------------------------------------------------------------------------

  /** The first `read` rows after the starting point are read, and the cursor stands on the last of them. */
  ghost predicate ReadUpTo(rows: seq<Memory>, all: seq<Memory>, read: nat, cursor: Option<Memory>,
                           memories: seq<Memory>)
  {
    read <= |all| && After(rows, cursor) == all[read..] && memories == Eligible(all[..read])
  }

  lemma ReadOneMore(rows: seq<Memory>, all: seq<Memory>, read: nat, cursor: Option<Memory>, memories: seq<Memory>)
    requires Ordered(rows) && ReadUpTo(rows, all, read, cursor, memories) && read < |all|
    ensures ReadUpTo(rows, all, read + 1, Some(all[read]), memories + if all[read].eligible then [all[read]] else [])
  {
    AfterCursor(rows, cursor, 0);
    assert all[read..][0] == all[read] && all[read..][1..] == all[read + 1..];
    EligibleJoin(all[..read], [all[read]]);
    assert all[..read + 1] == all[..read] + [all[read]];
    assert [all[read]][1..] == [];
  }

  lemma ReadAll(rows: seq<Memory>, all: seq<Memory>, read: nat, cursor: Option<Memory>, memories: seq<Memory>,
                limit: nat)
    requires ReadUpTo(rows, all, read, cursor, memories)
    requires |memories| == limit || (|memories| < limit && read == |all|)
    ensures memories == Taken(Eligible(all), limit)
  {
    EligibleJoin(all[..read], all[read..]);
    assert all == all[..read] + all[read..];
  }

  /** Takes rows off one batch until it is used up or the page is full. */
  method ReadBatch(rows: seq<Memory>, ghost all: seq<Memory>, ghost from: nat, start: Option<Memory>,
                   found: seq<Memory>, batch: seq<Memory>, limit: nat)
    returns (cursor: Option<Memory>, memories: seq<Memory>, ghost read: nat)
    requires Ordered(rows) && ReadUpTo(rows, all, from, start, found) && |found| < limit
    requires batch != [] && from + |batch| <= |all| && batch == all[from..from + |batch|]
    ensures ReadUpTo(rows, all, read, cursor, memories) && from < read && |memories| <= limit
  {
    cursor, memories, read := start, found, from;
    var i := 0;
    while i < |batch|
      invariant 0 <= i <= |batch| && read == from + i && |memories| <= limit
      invariant i < |batch| ==> |memories| < limit
      invariant ReadUpTo(rows, all, read, cursor, memories)
    {
      ReadOneMore(rows, all, read, cursor, memories);
      cursor := Some(batch[i]);
      read := read + 1;
      i := i + 1;
      if batch[i - 1].eligible {
        memories := memories + [batch[i - 1]];
        if |memories| == limit {
          return;
        }
      }
    }
  }

  /** Reads batches until enough eligible rows are found or none are left. */
  method ReadPage(rows: seq<Memory>, after: Option<Memory>, limit: nat) returns (memories: seq<Memory>)
    requires Ordered(rows) && limit > 0
    ensures memories == Taken(View(rows, after), limit)
  {
    memories := [];
    var cursor := after;
    ghost var all := After(rows, after);
    ghost var read := 0;
    while |memories| < limit
      invariant |memories| <= limit
      invariant ReadUpTo(rows, all, read, cursor, memories)
      decreases |all| - read
    {
      var batch := Taken(After(rows, cursor), BATCH);
      if batch == [] {
        break;
      }
      cursor, memories, read := ReadBatch(rows, all, read, cursor, memories, batch, limit);
    }
    ReadAll(rows, all, read, cursor, memories, limit);
  }

  // ----- browsing -----------------------------------------------------------------------------------------

  datatype Page = Page(items: seq<Memory>, next: Option<nat>) | InvalidLimit | InvalidCursor

  /** The row a cursor id names. */
  function RowOf(rows: seq<Memory>, id: nat): (r: Option<Memory>)
    ensures r.Some? ==> r.value in rows && r.value.id == id
    ensures r.None? ==> forall m | m in rows :: m.id != id
  {
    if rows == [] then None else if rows[0].id == id then Some(rows[0]) else RowOf(rows[1..], id)
  }

  /** The row a request's cursor stands for, when it names one. */
  predicate CursorKnown(rows: seq<Memory>, cursor: Option<nat>)
  {
    cursor.Some? ==> RowOf(rows, cursor.value).Some?
  }

  function CursorRow(rows: seq<Memory>, cursor: Option<nat>): (r: Option<Memory>)
  {
    if cursor.None? then None else RowOf(rows, cursor.value)
  }

  method Browse(rows: seq<Memory>, requested: Option<nat>, cursor: Option<nat>) returns (page: Page)
    requires Ordered(rows)
    ensures page.InvalidLimit? <==> requested.Some? && !(1 <= requested.value <= 20)
    ensures page.InvalidCursor? <==> !page.InvalidLimit? && !CursorKnown(rows, cursor)
    ensures page.Page? ==>
              var limit := if requested.None? then 10 else requested.value;
              var view := View(rows, CursorRow(rows, cursor));
              && page.items == Taken(view, limit)
              && (page.next.Some? <==> |view| > limit)
              && (page.next.Some? ==> View(rows, CursorRow(rows, page.next)) == view[limit..]
                                      && CursorKnown(rows, page.next))
  {
    var limit := if requested.None? then 10 else requested.value;
    if !(1 <= limit <= 20) {
      return InvalidLimit;
    }
    if !CursorKnown(rows, cursor) {
      return InvalidCursor;
    }
    var after := CursorRow(rows, cursor);
    var memories := ReadPage(rows, after, limit + 1);
    var more := |memories| > limit;
    if more {
      memories := memories[..limit];
      NextView(rows, after, limit);
    }
    page := Page(memories, if more then Some(memories[limit - 1].id) else None);
  }

  lemma {:induction false} RowOfMember(rows: seq<Memory>, m: Memory)
    requires Ordered(rows) && m in rows
    ensures RowOf(rows, m.id) == Some(m)
  {
    if rows[0].id != m.id {
      OrderedTail(rows);
      RowOfMember(rows[1..], m);
    } else {
      var k :| 0 <= k < |rows| && rows[k] == m;
    }
  }

  /** The `n`th eligible row splits the rows so that the later eligible rows are those behind it. */
  lemma {:induction false} EligibleSplit(rows: seq<Memory>, n: nat) returns (k: nat)
    requires n < |Eligible(rows)|
    ensures k < |rows| && rows[k] == Eligible(rows)[n] && Eligible(rows[k + 1..]) == Eligible(rows)[n + 1..]
  {
    var tail := rows[1..];
    if rows[0].eligible && n == 0 {
      k := 0;
    } else if rows[0].eligible {
      k := EligibleSplit(tail, n - 1);
      assert tail[k + 1..] == rows[k + 2..] && Eligible(rows)[n + 1..] == Eligible(tail)[n..];
      k := k + 1;
    } else {
      k := EligibleSplit(tail, n);
      assert tail[k + 1..] == rows[k + 2..];
      k := k + 1;
    }
  }

  /** The last shown row, used as cursor, continues exactly where the page stopped. */
  lemma NextView(rows: seq<Memory>, after: Option<Memory>, limit: nat)
    requires Ordered(rows) && 0 < limit < |View(rows, after)|
    ensures var last := View(rows, after)[limit - 1];
            && RowOf(rows, last.id) == Some(last)
            && View(rows, Some(last)) == View(rows, after)[limit..]
  {
    var all := After(rows, after);
    var last := View(rows, after)[limit - 1];
    var k := EligibleSplit(all, limit - 1);
    AfterCursor(rows, after, k);
    AfterMember(rows, after, last);
    RowOfMember(rows, last);
  }

  predicate FullPages(pages: seq<seq<Memory>>, limit: nat)
  {
    forall i | 0 <= i < |pages| :: |pages[i]| == limit
  }

  /** What is shown so far and what is left make up the whole list. */
  lemma OnePageMore(pages: seq<seq<Memory>>, page: seq<Memory>, left: seq<Memory>, rest: seq<Memory>, all: seq<Memory>)
    requires Concatenated(pages) + left == all && left == page + rest
    ensures Concatenated(pages + [page]) + rest == all
  {
    ConcatenatedSnoc(pages, page);
    assert Concatenated(pages) + (page + rest) == (Concatenated(pages) + page) + rest;
  }

  /** What a page takes of what is left, and what it leaves. */
  method NextPage(rows: seq<Memory>, limit: nat, cursor: Option<nat>)
    returns (items: seq<Memory>, next: Option<nat>, ghost rest: seq<Memory>)
    requires Ordered(rows) && 1 <= limit <= 20 && CursorKnown(rows, cursor)
    ensures View(rows, CursorRow(rows, cursor)) == items + rest && |items| <= limit
    ensures next.None? ==> rest == []
    ensures next.Some? ==> CursorKnown(rows, next) && rest == View(rows, CursorRow(rows, next)) && |items| == limit
  {
    var page := Browse(rows, Some(limit), cursor);
    ghost var left := View(rows, CursorRow(rows, cursor));
    items, next := page.items, page.next;
    rest := if next.Some? then left[limit..] else [];
    assert left == items + rest;
  }

  /** Repeating with each returned cursor ends, and the pages are the filtered list, each row once and in order. */
  method BrowseAll(rows: seq<Memory>, limit: nat) returns (pages: seq<seq<Memory>>)
    requires Ordered(rows) && 1 <= limit <= 20
    ensures Concatenated(pages) == View(rows, None)
    ensures pages != [] && FullPages(pages[..|pages| - 1], limit) && |pages[|pages| - 1]| <= limit
  {
    var full: seq<seq<Memory>> := [];
    var items, cursor;
    ghost var rest;
    ghost var all := View(rows, None);
    items, cursor, rest := NextPage(rows, limit, None);
    OnePageMore(full, items, all, rest, all);
    while cursor.Some?
      invariant |items| <= limit && (cursor.Some? ==> |items| == limit)
      invariant cursor.Some? ==> CursorKnown(rows, cursor) && rest == View(rows, CursorRow(rows, cursor))
      invariant cursor.None? ==> rest == []
      invariant Concatenated(full + [items]) + rest == all && FullPages(full, limit)
      decreases cursor.Some?, |rest|
    {
      full := full + [items];
      ghost var left := rest;
      items, cursor, rest := NextPage(rows, limit, cursor);
      OnePageMore(full, items, left, rest, all);
    }
    pages := full + [items];
    assert pages[..|pages| - 1] == full;
  }

  /** The list that paging delivers is the selected, eligible rows after the cursor in listing order. */
  lemma ViewIsTheFilteredList(rows: seq<Memory>, cursor: Option<Memory>)
    requires Ordered(rows)
    ensures Ordered(View(rows, cursor))
    ensures forall m :: m in View(rows, cursor) <==>
              && m in rows && m.selected && m.eligible
              && (cursor.Some? ==>
                    m.second < cursor.value.second || (m.second == cursor.value.second && m.id < cursor.value.id))
    ensures var view := View(rows, cursor);
            forall i, j | 0 <= i < j < |view| ::
              view[j].second < view[i].second || (view[j].second == view[i].second && view[j].id < view[i].id)
  {
    AfterOrdered(rows, cursor);
    EligibleOrdered(After(rows, cursor));
    forall m ensures m in View(rows, cursor) <==> m in rows && Passed(m, cursor) && m.eligible {
      AfterMember(rows, cursor, m);
      EligibleMember(After(rows, cursor), m);
    }
  }

  lemma OrderedCons(head: Memory, tail: seq<Memory>)
    requires Ordered(tail) && forall m | m in tail :: Before(head, m) && head.id != m.id
    ensures Ordered([head] + tail)
  {
    var rows := [head] + tail;
    assert forall i | 1 <= i < |rows| :: rows[i] == tail[i - 1] && rows[i] in tail;
  }

  lemma {:induction false} AfterOrdered(rows: seq<Memory>, cursor: Option<Memory>)
    requires Ordered(rows)
    ensures Ordered(After(rows, cursor))
  {
    if rows != [] {
      var tail := After(rows[1..], cursor);
      OrderedTail(rows);
      AfterOrdered(rows[1..], cursor);
      forall m | m in tail ensures Before(rows[0], m) && rows[0].id != m.id {
        AfterMember(rows[1..], cursor, m);
      }
      OrderedCons(rows[0], tail);
    }
  }

  lemma {:induction false} EligibleOrdered(rows: seq<Memory>)
    requires Ordered(rows)
    ensures Ordered(Eligible(rows))
  {
    if rows != [] {
      var tail := Eligible(rows[1..]);
      OrderedTail(rows);
      EligibleOrdered(rows[1..]);
      forall m | m in tail ensures Before(rows[0], m) && rows[0].id != m.id {
        EligibleMember(rows[1..], m);
      }
      OrderedCons(rows[0], tail);
    }
  }
}
