/** Cursor pagination over records in descending id order, while new records keep being inserted. */
module Pagination {

  datatype Rec = Rec(id: int, user: string)

  const DEFAULT_PAGE_SIZE := 20

  function PageSize(limit: int): nat {
    if limit <= 0 then DEFAULT_PAGE_SIZE else limit
  }

  predicate Matches(r: Rec, user: string, cursor: int) {
    r.user == user && (cursor > 0 ==> r.id < cursor)
  }

  /** WHERE user_id = user AND id < cursor (if positive) ORDER BY id DESC, on a table in id order. */
  function Matching(table: seq<Rec>, user: string, cursor: int): seq<Rec> {
    if table == [] then []
    else
      var last := table[|table| - 1];
      (if Matches(last, user, cursor) then [last] else []) + Matching(table[..|table| - 1], user, cursor)
  }

  function Take(rows: seq<Rec>, n: nat): seq<Rec> {
    if |rows| <= n then rows else rows[..n]
  }

  /** One row more than the page, to see whether there are more. */
  function FindRecords(table: seq<Rec>, user: string, cursor: int, limit: int): seq<Rec> {
    Take(Matching(table, user, cursor), PageSize(limit) + 1)
  }

  datatype Page<T> = Page(rows: seq<T>, next: int, hasMore: bool)

  function CursorPage<T>(rows: seq<T>, limit: int, id: T -> int): Page<T> {
    var size := PageSize(limit);
    if |rows| <= size then Page(rows, 0, false) else Page(rows[..size], id(rows[size - 1]), true)
  }

  function PageAt(table: seq<Rec>, user: string, cursor: int, limit: int): Page<Rec> {
    CursorPage(FindRecords(table, user, cursor, limit), limit, (r: Rec) => r.id)
  }

  // ---------- tables ----------

  /** Ids are positive and increase in the order of insertion. */
  ghost predicate Keyed(table: seq<Rec>) {
    && (forall i :: 0 <= i < |table| ==> table[i].id > 0)
    && (forall i, j :: 0 <= i < j < |table| ==> table[i].id < table[j].id)
  }

  /** The rows of a query are the matching records, each once, in descending id order. */
  lemma {:induction false} MatchingIsExact(table: seq<Rec>, user: string, cursor: int)
    requires Keyed(table)
    ensures forall r :: r in Matching(table, user, cursor) <==> r in table && r.user == user && (cursor <= 0 || r.id < cursor)
    ensures forall i, j :: 0 <= i < j < |Matching(table, user, cursor)| ==>
              Matching(table, user, cursor)[i].id > Matching(table, user, cursor)[j].id
  {
    if table != [] {
      var init, last := table[..|table| - 1], table[|table| - 1];
      MatchingIsExact(init, user, cursor);
      assert table == init + [last];
      assert forall r :: r in Matching(init, user, cursor) ==> r in init && r.id < last.id;
    }
  }

  /** A cursor that every record is below selects like any other such cursor. */
  lemma {:induction false} WideCursors(table: seq<Rec>, user: string, c: int, d: int)
    requires forall i :: 0 <= i < |table| ==> (c > 0 ==> table[i].id < c) && (d > 0 ==> table[i].id < d)
    ensures Matching(table, user, c) == Matching(table, user, d)
  {
    if table != [] {
      WideCursors(table[..|table| - 1], user, c, d);
    }
  }

  /** Taking the newest record off. */
  lemma Newest(table: seq<Rec>, user: string, cursor: int)
    requires Keyed(table) && table != []
    ensures var init, last := table[..|table| - 1], table[|table| - 1];
      && Keyed(init) && last.id > 0
      && (forall r :: r in init ==> r.id < last.id)
      && (forall r :: r in Matching(init, user, cursor) ==> 0 < r.id < last.id && Matches(r, user, cursor))
      && Matching(table, user, cursor) == (if Matches(last, user, cursor) then [last] else []) + Matching(init, user, cursor)
  {
    MatchingIsExact(table[..|table| - 1], user, cursor);
    assert forall i :: 0 <= i < |table| - 1 ==> table[..|table| - 1][i] == table[i];
  }

  /** Asking again from the id of row k gives the rows after row k. */
  lemma {:induction false} NextCursor(table: seq<Rec>, user: string, cursor: int, k: nat)
    requires Keyed(table) && k < |Matching(table, user, cursor)|
    ensures var rows := Matching(table, user, cursor);
      Matching(table, user, rows[k].id) == rows[k + 1..]
  {
    var init, last := table[..|table| - 1], table[|table| - 1];
    var rows, older := Matching(table, user, cursor), Matching(init, user, cursor);
    Newest(table, user, cursor);
    var next := rows[k].id;
    Newest(table, user, next);
    hide Matching, Keyed;
    if !Matches(last, user, cursor) {
      assert rows == older;
      NextCursor(init, user, cursor, k);
      assert rows[k] in older;
    } else if k == 0 {
      WideCursors(init, user, next, cursor);
      assert rows[1..] == older;
    } else {
      assert rows[k] == older[k - 1] && rows[k] in older;
      NextCursor(init, user, cursor, k - 1);
      assert rows[k + 1..] == older[k..];
    }
  }

  /** Records inserted later, with larger ids, are not seen below a cursor. */
  lemma {:induction false} InsertsGoUnseen(table: seq<Rec>, more: seq<Rec>, user: string, cursor: int)
    requires cursor > 0 && forall i :: 0 <= i < |more| ==> more[i].id >= cursor
    ensures Matching(table + more, user, cursor) == Matching(table, user, cursor)
  {
    if more == [] {
      assert table + more == table;
    } else {
      InsertsGoUnseen(table, more[..|more| - 1], user, cursor);
      assert (table + more)[..|table + more| - 1] == table + more[..|more| - 1];
    }
  }

  // ---------- the whole walk ----------

  /** tables(i) is the table when page i is fetched: keyed, and only ever appended to. */
  ghost predicate Grows(tables: nat -> seq<Rec>) {
    forall i: nat :: Keyed(tables(i)) && tables(i) <= tables(i + 1)
  }

  /** After a page with more to come, exactly the rows after it are left for the next cursor, whatever was inserted meanwhile. */
  lemma PageLeavesRest(table: seq<Rec>, later: seq<Rec>, user: string, cursor: int, limit: int)
    requires Keyed(table) && Keyed(later) && table <= later
    ensures var page := PageAt(table, user, cursor, limit);
      var rows := Matching(table, user, cursor);
      var size := if limit <= 0 then 20 else limit;
      && (page.hasMore <==> |rows| > size)
      && (page.next == if page.hasMore then rows[size - 1].id else 0)
      && page.rows == Take(rows, size)
      && (page.hasMore ==> page.next > 0 && Matching(later, user, page.next) == rows[size..])
  {
    hide Matching, Keyed, PageAt, PageSize, Take;
    PageAtIs(table, user, cursor, limit);
    var rows := Matching(table, user, cursor);
    var size := PageSize(limit);
    if |rows| > size {
      NextCursor(table, user, cursor, size - 1);
      MatchingIsExact(table, user, cursor);
      assert rows[size - 1] in rows;
      LaterIdsAreLarger(table, later, rows[size - 1]);
      InsertsGoUnseen(table, later[|table|..], user, rows[size - 1].id);
      assert later == table + later[|table|..];
    }
  }

  lemma PageAtIs(table: seq<Rec>, user: string, cursor: int, limit: int)
    ensures var rows := Matching(table, user, cursor);
      var size := PageSize(limit);
      && size == (if limit <= 0 then 20 else limit)
      && PageAt(table, user, cursor, limit) ==
           Page(Take(rows, size), if |rows| > size then rows[size - 1].id else 0, |rows| > size)
  {
    hide Matching;
    var rows := Matching(table, user, cursor);
    var size := PageSize(limit);
    if |rows| > size {
      assert Take(rows, size + 1)[..size] == rows[..size];
    }
  }

  lemma LaterIdsAreLarger(table: seq<Rec>, later: seq<Rec>, r: Rec)
    requires Keyed(table) && Keyed(later) && table <= later && r in table
    ensures r.id > 0 && forall i :: |table| <= i < |later| ==> later[i].id > r.id
  {
    var k :| 0 <= k < |table| && table[k] == r;
    assert later[k] == r;
  }

  /** The pages from page i on, following next until hasMore is false. */
  ghost function Walk(tables: nat -> seq<Rec>, i: nat, user: string, cursor: int, limit: int): seq<seq<Rec>>
    requires Grows(tables)
    decreases |Matching(tables(i), user, cursor)|
  {
    var page := PageAt(tables(i), user, cursor, limit);
    PageLeavesRest(tables(i), tables(i + 1), user, cursor, limit);
    if page.hasMore then [page.rows] + Walk(tables, i + 1, user, page.next, limit) else [page.rows]
  }

  function Flatten(pages: seq<seq<Rec>>): seq<Rec> {
    if pages == [] then [] else pages[0] + Flatten(pages[1..])
  }

  /**
   Following the cursors gives every matching record that existed when the walk began, once and in
   descending id order, whatever is inserted on the way; all pages but the last are full.
   */
  lemma {:induction false} WalkIsExact(tables: nat -> seq<Rec>, i: nat, user: string, cursor: int, limit: int)
    requires Grows(tables)
    ensures var pages := Walk(tables, i, user, cursor, limit);
      && Flatten(pages) == Matching(tables(i), user, cursor)
      && pages != []
      && |pages[|pages| - 1]| <= (if limit <= 0 then 20 else limit)
      && (|pages| > 1 ==> pages[|pages| - 1] != [])
      && forall k :: 0 <= k < |pages| - 1 ==> |pages[k]| == if limit <= 0 then 20 else limit
    decreases |Matching(tables(i), user, cursor)|
  {
    hide Walk, PageAt, Matching;
    WalkUnfolds(tables, i, user, cursor, limit);
    PageLeavesRest(tables(i), tables(i + 1), user, cursor, limit);
    var page := PageAt(tables(i), user, cursor, limit);
    var pages := Walk(tables, i, user, cursor, limit);
    if page.hasMore {
      var rest := Walk(tables, i + 1, user, page.next, limit);
      WalkIsExact(tables, i + 1, user, page.next, limit);
      assert pages[1..] == rest;
      LastIsNotEmpty(rest);
    } else {
      assert pages[1..] == [];
    }
  }

  lemma WalkUnfolds(tables: nat -> seq<Rec>, i: nat, user: string, cursor: int, limit: int)
    requires Grows(tables)
    ensures var page := PageAt(tables(i), user, cursor, limit);
      Walk(tables, i, user, cursor, limit) ==
        if page.hasMore then [page.rows] + Walk(tables, i + 1, user, page.next, limit) else [page.rows]
  {
    hide PageAt, Matching;
  }

  lemma LastIsNotEmpty(pages: seq<seq<Rec>>)
    requires pages != [] && Flatten(pages) != [] && (|pages| > 1 ==> pages[|pages| - 1] != [])
    ensures pages[|pages| - 1] != []
  {
    if |pages| == 1 {
      assert pages[1..] == [];
    }
  }
}
