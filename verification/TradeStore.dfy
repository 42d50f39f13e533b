/** The fill table: cursors, pages, and draining pages while rows keep arriving. */
module TradeStore {
  import opened Prelude
  import opened Text

  datatype Trade = Trade(
    eventId: string, accountId: string, owner: Owner, clientOrderId: string,
    orderId: string, tradeId: string, symbol: string, exchange: string,
    direction: string, price: real, volume: int, tradeTime: string, tradingDay: string)

  /** A stored fill; `id` is the cursor handed to clients. */
  datatype Row = Row(id: int, trade: Trade)

  datatype Page = Page(trades: seq<Row>, nextAfterId: int, hasMore: bool)

  ghost predicate Ascending(rows: seq<Row>) {
    && (forall i :: 0 <= i < |rows| ==> 0 < rows[i].id)
    && forall i, j :: 0 <= i < j < |rows| ==> rows[i].id < rows[j].id
  }

  /** The event id a row is known by: uniqueness is decided after stripping. */
  function Event(row: Row): string {
    Strip(row.trade.eventId)
  }

  ghost predicate Known(rows: seq<Row>, eventId: string) {
    exists i :: 0 <= i < |rows| && Event(rows[i]) == eventId
  }

  ghost predicate UniqueEvents(rows: seq<Row>) {
    forall i, j :: 0 <= i < j < |rows| ==> Event(rows[i]) != Event(rows[j])
  }

  function LastId(rows: seq<Row>): int {
    if rows == [] then 0 else rows[|rows| - 1].id
  }

  /**
   * Recording one fill: the new table and the cursor, None for a fill already
   * stored. `gap` counts ids a database sequence skipped; memory never skips.
   */
  ghost function Record(rows: seq<Row>, trade: Trade, gap: nat): (seq<Row>, Option<int>) {
    if Known(rows, Strip(trade.eventId)) then (rows, None)
    else
      var id := LastId(rows) + 1 + gap;
      (rows + [Row(id, trade)], Some(id))
  }

  /** Recording keeps cursors ascending and every event in one row only. */
  lemma RecordKeepsTable(rows: seq<Row>, trade: Trade, gap: nat)
    requires Ascending(rows) && UniqueEvents(rows)
    ensures Ascending(Record(rows, trade, gap).0) && UniqueEvents(Record(rows, trade, gap).0)
    ensures rows <= Record(rows, trade, gap).0
    ensures Known(Record(rows, trade, gap).0, Strip(trade.eventId))
  {
    var after := Record(rows, trade, gap).0;
    if after != rows {
      assert Event(after[|rows|]) == Strip(trade.eventId);
    }
  }

  /** Afterwards the table knows the event and those it knew before. */
  lemma RecordKnows(rows: seq<Row>, trade: Trade, gap: nat, eventId: string)
    ensures Known(Record(rows, trade, gap).0, eventId) <==> Known(rows, eventId) || eventId == Strip(trade.eventId)
  {
    var after := Record(rows, trade, gap).0;
    if after != rows {
      assert Event(after[|rows|]) == Strip(trade.eventId);
      if Known(rows, eventId) {
        var i :| 0 <= i < |rows| && Event(rows[i]) == eventId;
        assert Event(after[i]) == eventId;
      }
    }
  }

  predicate Selects(row: Row, owner: Owner, after: int) {
    row.id > after && row.trade.owner == owner
  }

  function Matching(rows: seq<Row>, owner: Owner, after: int): seq<Row> {
    if rows == [] then []
    else
      var last := rows[|rows| - 1];
      Matching(rows[..|rows| - 1], owner, after) + if Selects(last, owner, after) then [last] else []
  }

  function PageSize(limit: int): int {
    if limit < 1 then 1 else if limit > 1000 then 1000 else limit
  }

  function Start(afterId: int): int {
    if afterId < 0 then 0 else afterId
  }

  function Cut(matching: seq<Row>, size: nat, cursor: int): Page {
    var page := if |matching| <= size then matching else matching[..size];
    Page(page, if page == [] then cursor else page[|page| - 1].id, |matching| > size)
  }

  function ListTrades(rows: seq<Row>, owner: Owner, afterId: int, limit: int): Page {
    Cut(Matching(rows, owner, Start(afterId)), PageSize(limit), Start(afterId))
  }

  function LatestCursor(rows: seq<Row>, owner: Owner): int {
    if rows == [] then 0
    else
      var last := rows[|rows| - 1];
      var before := LatestCursor(rows[..|rows| - 1], owner);
      if last.trade.owner == owner && last.id > before then last.id else before
  }

  // ---- What a filtered table looks like ----

  lemma {:induction false} MatchingIsFilter(rows: seq<Row>, owner: Owner, after: int)
    ensures forall r :: r in Matching(rows, owner, after) <==> r in rows && Selects(r, owner, after)
    ensures Ascending(rows) ==> Ascending(Matching(rows, owner, after))
  {
    if rows != [] {
      var init, last := rows[..|rows| - 1], rows[|rows| - 1];
      MatchingIsFilter(init, owner, after);
      assert rows == init + [last];
      if Ascending(rows) {
        AscendingSnoc(init, Matching(init, owner, after), last);
      }
    }
  }

  lemma AscendingSnoc(init: seq<Row>, m: seq<Row>, last: Row)
    requires Ascending(init + [last]) && Ascending(m) && forall r :: r in m ==> r in init
    ensures Ascending(m + [last]) && Ascending(init)
  {
    forall i | 0 <= i < |m| ensures m[i].id < last.id {
      assert m[i] in m;
      var j :| 0 <= j < |init| && init[j] == m[i];
      assert (init + [last])[j] == init[j] && (init + [last])[|init|] == last;
    }
    forall i, j | 0 <= i < j < |init| ensures init[i].id < init[j].id {
      assert (init + [last])[i] == init[i] && (init + [last])[j] == init[j];
    }
    forall i | 0 <= i < |init| ensures 0 < init[i].id { assert (init + [last])[i] == init[i]; }
    assert 0 < (init + [last])[|init|].id;
  }

  lemma {:induction false} MatchingNothing(rows: seq<Row>, owner: Owner, after: int)
    requires forall i :: 0 <= i < |rows| ==> rows[i].id <= after
    ensures Matching(rows, owner, after) == []
  {
    if rows != [] {
      MatchingNothing(rows[..|rows| - 1], owner, after);
    }
  }

  lemma {:induction false} MatchingGrows(rows: seq<Row>, more: seq<Row>, owner: Owner, after: int)
    ensures Matching(rows + more, owner, after) == Matching(rows, owner, after) + Matching(more, owner, after)
  {
    if more == [] {
      assert rows + more == rows;
    } else {
      var n := |more| - 1;
      assert (rows + more)[..|rows| + n] == rows + more[..n];
      MatchingGrows(rows, more[..n], owner, after);
    }
  }

  lemma MatchingLast(rows: seq<Row>, owner: Owner, after: int)
    requires Ascending(rows) && rows != []
    ensures var init, last := rows[..|rows| - 1], rows[|rows| - 1];
            && Ascending(init)
            && (forall r :: r in Matching(init, owner, after) ==> after < r.id < last.id && r.trade.owner == owner)
  {
    var init := rows[..|rows| - 1];
    MatchingIsFilter(init, owner, after);
    forall r | r in Matching(init, owner, after)
      ensures r.id < rows[|rows| - 1].id
    {
      var i :| 0 <= i < |init| && init[i] == r;
      assert rows[i] == r;
    }
  }

  /** Restarting after the q-th match yields precisely the remaining matches. */
  lemma {:induction false} MatchingResumes(rows: seq<Row>, owner: Owner, after: int, q: nat)
    requires Ascending(rows)
    requires 0 < q <= |Matching(rows, owner, after)|
    ensures var m := Matching(rows, owner, after);
            Matching(rows, owner, m[q - 1].id) == m[q..]
  {
    var init, last := rows[..|rows| - 1], rows[|rows| - 1];
    var before, m := Matching(init, owner, after), Matching(rows, owner, after);
    MatchingLast(rows, owner, after);
    var tail := if Selects(last, owner, after) then [last] else [];
    assert m == before + tail;
    if q <= |before| {
      MatchingResumes(init, owner, after, q);
      var x := m[q - 1].id;
      assert m[q - 1] == before[q - 1];
      assert before[q - 1] in before;
      assert Matching(rows, owner, x) == Matching(init, owner, x) + tail;
      assert m[q..] == before[q..] + tail;
    } else {
      assert m[q - 1] == last && m[q..] == [];
      MatchingNothing(rows, owner, last.id);
    }
  }

  // ---- Draining ----

  /** A history of the table: each reading is extended by all later ones. */
  ghost predicate Growing(tables: seq<seq<Row>>) {
    tables == [] ||
    (Ascending(tables[0]) && (forall j :: 0 <= j < |tables| ==> tables[0] <= tables[j]) && Growing(tables[1..]))
  }

  datatype Drained = Drained(trades: seq<Row>, cursor: int, finished: bool, pages: nat)

  /**
   * A client that follows `next_after_id` until `has_more` is false. The i-th
   * page is read from tables[i] with limit limits[i].
   */
  function Drain(tables: seq<seq<Row>>, limits: seq<int>, owner: Owner, cursor: int): Drained
    requires |limits| == |tables|
    decreases |tables|
  {
    if tables == [] then Drained([], cursor, false, 0)
    else
      var page := ListTrades(tables[0], owner, cursor, limits[0]);
      if !page.hasMore then Drained(page.trades, page.nextAfterId, true, 1)
      else
        var rest := Drain(tables[1..], limits[1..], owner, page.nextAfterId);
        Drained(page.trades + rest.trades, rest.cursor, rest.finished, rest.pages + 1)
  }

  /** A later table shows the same page first, then what follows the page's last row. */
  lemma PageIsPrefix(rows: seq<Row>, later: seq<Row>, owner: Owner, cursor: int, limit: int)
    requires Ascending(rows) && Ascending(later) && rows <= later
    ensures var page := ListTrades(rows, owner, cursor, limit);
            && (page.hasMore ==>
                  && page.trades != [] && page.nextAfterId > Start(cursor)
                  && Matching(later, owner, Start(cursor)) == page.trades + Matching(later, owner, page.nextAfterId))
            && (!page.hasMore ==> Matching(rows, owner, Start(cursor)) == page.trades)
  {
    PageShape(Matching(rows, owner, Start(cursor)), PageSize(limit), Start(cursor));
    if ListTrades(rows, owner, cursor, limit).hasMore {
      NextPage(rows, later, owner, Start(cursor), PageSize(limit));
    }
  }

  lemma PageShape(m: seq<Row>, size: nat, cursor: int)
    requires size > 0
    ensures var page := Cut(m, size, cursor);
            && (page.hasMore <==> |m| > size)
            && (page.hasMore ==> page.trades == m[..size] && page.nextAfterId == m[size - 1].id)
            && (!page.hasMore ==> page.trades == m)
  {
  }

  lemma NextPage(rows: seq<Row>, later: seq<Row>, owner: Owner, from: int, size: nat)
    requires Ascending(rows) && Ascending(later) && rows <= later && 0 < size <= |Matching(rows, owner, from)|
    ensures var m := Matching(rows, owner, from);
            && m[size - 1].id > from
            && Matching(later, owner, from) == m[..size] + Matching(later, owner, m[size - 1].id)
  {
    LaterMatches(rows, later, owner, from);
    CutAdvances(rows, owner, from, size);
    PrefixCut(Matching(rows, owner, from), Matching(later[|rows|..], owner, from), size);
    MatchingResumes(later, owner, from, size);
  }

  lemma LaterMatches(rows: seq<Row>, later: seq<Row>, owner: Owner, from: int)
    requires rows <= later
    ensures Matching(later, owner, from) == Matching(rows, owner, from) + Matching(later[|rows|..], owner, from)
  {
    assert later == rows + later[|rows|..];
    MatchingGrows(rows, later[|rows|..], owner, from);
  }

  lemma CutAdvances(rows: seq<Row>, owner: Owner, from: int, size: nat)
    requires 0 < size <= |Matching(rows, owner, from)|
    ensures Matching(rows, owner, from)[size - 1].id > from
  {
    var m := Matching(rows, owner, from);
    MatchingIsFilter(rows, owner, from);
    assert m[size - 1] in m;
  }

  lemma PrefixCut(m: seq<Row>, more: seq<Row>, size: nat)
    requires 0 < size <= |m|
    ensures (m + more)[size - 1] == m[size - 1]
    ensures m + more == m[..size] + (m + more)[size..]
  {
  }

  lemma {:induction false} GrowingAt(tables: seq<seq<Row>>, k: nat)
    requires Growing(tables) && k < |tables|
    ensures Ascending(tables[k]) && tables[0] <= tables[k]
  {
    if k > 0 { GrowingAt(tables[1..], k - 1); }
  }

  lemma DrainStep(tables: seq<seq<Row>>, limits: seq<int>, owner: Owner, cursor: int)
    requires |limits| == |tables| > 0
    ensures var page := ListTrades(tables[0], owner, cursor, limits[0]);
            var rest := Drain(tables[1..], limits[1..], owner, page.nextAfterId);
            Drain(tables, limits, owner, cursor) ==
              if page.hasMore then Drained(page.trades + rest.trades, rest.cursor, rest.finished, rest.pages + 1)
              else Drained(page.trades, page.nextAfterId, true, 1)
  {
  }

  /** The drain read exactly the owner's rows of `rows` above the start, and ends at the last of them. */
  ghost predicate ReadAll(trades: seq<Row>, end: int, rows: seq<Row>, owner: Owner, cursor: int) {
    && trades == Matching(rows, owner, Start(cursor))
    && end == if trades == [] then Start(cursor) else trades[|trades| - 1].id
  }

  /** One page read from `rows`, the rest already drained up to table `last`. */
  lemma DrainJoins(rows: seq<Row>, last: seq<Row>, owner: Owner, cursor: int, limit: int, rest: Drained)
    requires Ascending(rows) && Ascending(last) && rows <= last
    requires ListTrades(rows, owner, cursor, limit).hasMore
    requires ReadAll(rest.trades, rest.cursor, last, owner, ListTrades(rows, owner, cursor, limit).nextAfterId)
    ensures ReadAll(ListTrades(rows, owner, cursor, limit).trades + rest.trades, rest.cursor, last, owner, cursor)
  {
    PageIsPrefix(rows, last, owner, cursor, limit);
  }

  /**
   * Completeness: a drain that ends read every fill of the owner above the
   * starting cursor that the last table read contains - in id order, none
   * missed, none repeated - whatever the limits and whatever was appended
   * between two pages. It ends at the owner's latest cursor.
   */
  lemma {:induction false} DrainIsComplete(tables: seq<seq<Row>>, limits: seq<int>, owner: Owner, cursor: int)
    requires Growing(tables) && |limits| == |tables|
    requires Drain(tables, limits, owner, cursor).finished
    ensures var d := Drain(tables, limits, owner, cursor);
            && 1 <= d.pages <= |tables|
            && ReadAll(d.trades, d.cursor, tables[d.pages - 1], owner, cursor)
  {
    var page := ListTrades(tables[0], owner, cursor, limits[0]);
    DrainStep(tables, limits, owner, cursor);
    GrowingAt(tables, 0);
    if page.hasMore {
      var rest := Drain(tables[1..], limits[1..], owner, page.nextAfterId);
      DrainIsComplete(tables[1..], limits[1..], owner, page.nextAfterId);
      GrowingAt(tables, rest.pages);
      assert tables[1..][rest.pages - 1] == tables[rest.pages];
      DrainJoins(tables[0], tables[rest.pages], owner, cursor, limits[0], rest);
    } else {
      PageIsPrefix(tables[0], tables[0], owner, cursor, limits[0]);
    }
  }

  /**
   * Termination: once the table stops changing, a drain ends after at most one
   * page per remaining fill (and one page when none remains).
   */
  lemma {:induction false} DrainEnds(rows: seq<Row>, tables: seq<seq<Row>>, limits: seq<int>, owner: Owner, cursor: int)
    requires Ascending(rows) && |limits| == |tables|
    requires forall i :: 0 <= i < |tables| ==> tables[i] == rows
    requires tables != [] && |tables| >= |Matching(rows, owner, Start(cursor))|
    ensures Drain(tables, limits, owner, cursor).finished
  {
    var page := ListTrades(rows, owner, cursor, limits[0]);
    PageIsPrefix(rows, rows, owner, cursor, limits[0]);
    if page.hasMore {
      var left := Matching(rows, owner, page.nextAfterId);
      assert |Matching(rows, owner, Start(cursor))| == |page.trades| + |left|;
      DrainEnds(rows, tables[1..], limits[1..], owner, page.nextAfterId);
    }
  }

  lemma {:induction false} LatestIsMaximum(rows: seq<Row>, owner: Owner)
    requires Ascending(rows)
    ensures LatestCursor(rows, owner) >= 0
    ensures forall r :: r in rows && r.trade.owner == owner ==> r.id <= LatestCursor(rows, owner)
    ensures LatestCursor(rows, owner) == 0
         || exists r :: r in rows && r.trade.owner == owner && r.id == LatestCursor(rows, owner)
  {
    if rows != [] {
      var init, last := rows[..|rows| - 1], rows[|rows| - 1];
      LatestIsMaximum(init, owner);
      assert rows == init + [last];
      if LatestCursor(rows, owner) != 0 && LatestCursor(rows, owner) != last.id {
        var r :| r in init && r.trade.owner == owner && r.id == LatestCursor(init, owner);
        assert r in rows;
      } else if LatestCursor(rows, owner) == last.id {
        assert last in rows;
      }
    }
  }

  /** The cursor a finished drain ends at, in terms of `latest_trade_cursor`. */
  lemma DrainEndsAtLatest(tables: seq<seq<Row>>, limits: seq<int>, owner: Owner, cursor: int)
    requires Growing(tables) && |limits| == |tables|
    requires Drain(tables, limits, owner, cursor).finished
    ensures var d := Drain(tables, limits, owner, cursor);
            && 1 <= d.pages <= |tables|
            && var latest := LatestCursor(tables[d.pages - 1], owner);
               d.cursor == if latest > Start(cursor) then latest else Start(cursor)
  {
    DrainIsComplete(tables, limits, owner, cursor);
    var d := Drain(tables, limits, owner, cursor);
    GrowingAt(tables, d.pages - 1);
    ReadAllEnds(d.trades, d.cursor, tables[d.pages - 1], owner, cursor);
  }

  lemma ReadAllEnds(trades: seq<Row>, end: int, rows: seq<Row>, owner: Owner, cursor: int)
    requires Ascending(rows) && ReadAll(trades, end, rows, owner, cursor)
    ensures var latest := LatestCursor(rows, owner); end == if latest > Start(cursor) then latest else Start(cursor)
  {
    MatchingEndsAtLatest(rows, owner, Start(cursor));
  }

  lemma MatchingEndsAtLatest(rows: seq<Row>, owner: Owner, from: int)
    requires Ascending(rows) && from >= 0
    ensures var m, latest := Matching(rows, owner, from), LatestCursor(rows, owner);
            (if m == [] then from else m[|m| - 1].id) == if latest > from then latest else from
  {
    var m, latest := Matching(rows, owner, from), LatestCursor(rows, owner);
    MatchingIsFilter(rows, owner, from);
    LatestIsMaximum(rows, owner);
    if latest > from {
      var r :| r in rows && r.trade.owner == owner && r.id == latest;
      assert r in m;
      var i :| 0 <= i < |m| && m[i] == r;
      assert m[|m| - 1] in m;
    } else {
      MatchingEmpty(rows, owner, from);
    }
  }

  lemma {:induction false} MatchingEmpty(rows: seq<Row>, owner: Owner, from: int)
    requires forall r :: r in rows && r.trade.owner == owner ==> r.id <= from
    ensures Matching(rows, owner, from) == []
  {
    if rows != [] {
      assert rows[|rows| - 1] in rows;
      MatchingEmpty(rows[..|rows| - 1], owner, from);
    }
  }

  // ---- What one page holds ----

  lemma CutHolds(m: seq<Row>, size: nat, cursor: int)
    requires Ascending(m) && size > 0
    ensures var page := Cut(m, size, cursor);
            && page.trades <= m && |page.trades| <= size
            && (page.hasMore ==> |page.trades| == size && size < |m| && m[size].id > page.nextAfterId)
            && (!page.hasMore ==> page.trades == m)
            && page.nextAfterId == if page.trades == [] then cursor else page.trades[|page.trades| - 1].id
  {
  }

  lemma LeftOut(m: seq<Row>, size: nat, cursor: int, r: Row)
    requires Ascending(m) && size > 0 && r in m && r !in Cut(m, size, cursor).trades
    ensures Cut(m, size, cursor).hasMore && r.id > Cut(m, size, cursor).nextAfterId
  {
    CutHolds(m, size, cursor);
    var page := Cut(m, size, cursor);
    var i :| 0 <= i < |m| && m[i] == r;
    if i < |page.trades| { assert page.trades[i] == r; }
  }

  lemma MatchedRow(rows: seq<Row>, owner: Owner, afterId: int, r: Row)
    requires Ascending(rows)
    ensures r in Matching(rows, owner, Start(afterId)) <==> r in rows && r.trade.owner == owner && r.id > afterId
  {
    MatchingIsFilter(rows, owner, Start(afterId));
    if r in rows {
      var i :| 0 <= i < |rows| && rows[i] == r;
    }
  }

  /**
   * A page holds the owner's next rows above the cursor: none of another owner,
   * none left out below the cursor it returns, and it says whether there are more.
   */
  lemma PageHolds(rows: seq<Row>, owner: Owner, afterId: int, limit: int)
    requires Ascending(rows)
    ensures var page := ListTrades(rows, owner, afterId, limit);
            && (forall r :: r in page.trades ==> r in rows && r.trade.owner == owner && r.id > afterId)
            && (forall r :: r in rows && r.trade.owner == owner && r.id > afterId && r !in page.trades ==>
                  page.hasMore && r.id > page.nextAfterId)
            && (page.hasMore ==> exists r :: r in rows && r.trade.owner == owner && r.id > page.nextAfterId)
  {
    var m, size, from := Matching(rows, owner, Start(afterId)), PageSize(limit), Start(afterId);
    var page := ListTrades(rows, owner, afterId, limit);
    MatchingIsFilter(rows, owner, from);
    CutHolds(m, size, from);
    forall r | r in page.trades ensures r in rows && r.trade.owner == owner && r.id > afterId {
      MatchedRow(rows, owner, afterId, r);
    }
    forall r | r in rows && r.trade.owner == owner && r.id > afterId && r !in page.trades
      ensures page.hasMore && r.id > page.nextAfterId
    {
      MatchedRow(rows, owner, afterId, r);
      LeftOut(m, size, from, r);
    }
    if page.hasMore { MatchedRow(rows, owner, afterId, m[size]); }
  }

  /** The page is in id order, as long as its limit says, and leaves its cursor at its last row. */
  lemma PageShown(rows: seq<Row>, owner: Owner, afterId: int, limit: int)
    requires Ascending(rows)
    ensures var page := ListTrades(rows, owner, afterId, limit);
            var most := if limit < 1 then 1 else if limit > 1000 then 1000 else limit;
            && Ascending(page.trades)
            && |page.trades| <= most && (page.hasMore ==> |page.trades| == most)
            && page.nextAfterId == (if page.trades != [] then page.trades[|page.trades| - 1].id
                                    else if afterId < 0 then 0 else afterId)
  {
    MatchingIsFilter(rows, owner, Start(afterId));
    CutHolds(Matching(rows, owner, Start(afterId)), PageSize(limit), Start(afterId));
  }
}
