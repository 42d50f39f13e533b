/** What a stored fill says: whose it is, what it carries, who reads it and where it is published. */
module FillRows {
  import opened Prelude
  import opened Text
  import opened OrderStore
  import opened OrderLifecycle
  import opened SubmissionSafety
  import opened OrderIndexes
  import opened FillSafety
  import T = TradeStore

  /** Every native column of the fill stands in its own field. */
  predicate CarriesFill(t: T.Trade, f: Fill) {
    && t.accountId == f.accountId && t.orderId == f.orderNo && t.tradeId == f.tradeId && t.exchange == f.exchange
    && t.direction == f.direction && t.price == f.price && t.volume == f.volume
    && t.tradeTime == f.tradeTime && t.tradingDay == f.tradingDay
  }

  /** The row is a fill of order `k`, under the order's own symbol. */
  predicate CarriesOrder(t: T.Trade, k: Key, symbol: string) {
    && t.owner.clientId == k.clientId && t.owner.strategyId == k.strategyId
    && t.clientOrderId == k.clientOrderId && t.symbol == symbol
  }

  /** The row is a fill of no known order. */
  predicate CarriesNobody(t: T.Trade, native: string, symbol: string) {
    t.owner.clientId == "" && t.owner.strategyId == "" && t.clientOrderId == native && t.symbol == symbol
  }

  /** The event id is made from the row's own columns; all but the match number matter only without one. */
  predicate CarriesEvent(digest: FillId -> string, t: T.Trade) {
    t.eventId == "trade:tap:" + digest(
      FillId(t.accountId, t.tradingDay, t.exchange, t.tradeId,
             if t.tradeId != "" then None
             else Some(Fallback(
                         t.orderId, t.clientOrderId, t.symbol, t.direction, t.price, t.volume, t.tradeTime))))
  }

  /** Whose fill it is, and the topics that go with it. */
  predicate Belongs(row: T.Row, topics: seq<string>, f: Fill, native: string, identity: Option<Identity>) {
    match identity
    case Some(id) =>
      && CarriesOrder(row.trade, id.key, id.symbol)
      && topics == ["trades." + f.accountId, "trades." + f.accountId + "." + id.key.strategyId]
    case None => CarriesNobody(row.trade, native, f.symbol) && topics == ["trades." + f.accountId]
  }

  /** Recording a resolved fill adds one row that says all of that, or none. */
  lemma RecordedRow(digest: FillId -> string, w: World, f: Fill, found: Option<Key>, gap: nat)
    requires f.resolved
    ensures var (w', p) := RecordFill(digest, w, f, found, gap);
            var a := Attribute(w, f.orderNo, f.serverFlag, found);
            if p.None? then w'.trades == w.trades
            else
              var row := p.value.row;
              && w'.trades == w.trades + [row] && row.id == T.LastId(w.trades) + 1 + gap
              && CarriesFill(row.trade, f) && CarriesEvent(digest, row.trade)
              && Belongs(row, p.value.topics, f, a.native, a.identity)
  {
  }

  /** The row of a fill and what is published about it. */
  predicate Shows(row: T.Row, f: Fill, native: string, identity: Option<Identity>, published: seq<Publication>) {
    && CarriesFill(row.trade, f)
    && (match identity
        case Some(id) => CarriesOrder(row.trade, id.key, id.symbol)
        case None => CarriesNobody(row.trade, native, f.symbol))
    && published == [Publication("trades." + f.accountId, row)] +
         if identity.Some? then
           [Publication("trades." + f.accountId + "." + identity.value.key.strategyId, row)] else []
  }

  lemma PublishesAll(w: World, row: T.Row, topics: seq<string>)
    requires |topics| == 1 || |topics| == 2
    ensures var w', first := PublishAll(w, Some(Publishing(row, topics))), Publication(topics[0], row);
            w' == w.(log := w.log.(published := w.log.published +
                       if |topics| == 1 then [first] else [first, Publication(topics[1], row)]))
  {
    var (w1, p1) := PublishNext(w, Publishing(row, topics));
    if |topics| == 2 {
      var (w2, p2) := PublishNext(w1, p1.value);
      assert PublishAll(w1, p1) == PublishAll(w2, p2) && p2.None?;
      assert w2.log.published == w.log.published + [Publication(topics[0], row), Publication(topics[1], row)];
    } else {
      assert p1.None?;
    }
  }

  /** A whole fill callback: nothing, or one row that is stored and then published on its topics. */
  lemma FillAnswers(digest: FillId -> string, w: World, f: Fill, found: Option<Key>, gap: nat)
    requires f.resolved
    ensures var (w1, p) := RecordFill(digest, w, f, found, gap);
            var w', a := PublishAll(w1, p), Attribute(w, f.orderNo, f.serverFlag, found);
            if p.None? then w'.trades == w.trades && w'.log == w.log
            else
              && w'.trades == w.trades + [p.value.row] && w.log.published <= w'.log.published
              && Shows(p.value.row, f, a.native, a.identity, w'.log.published[|w.log.published|..])
  {
    RecordedRow(digest, w, f, found, gap);
    var (w1, p) := RecordFill(digest, w, f, found, gap);
    if p.Some? {
      PublishesAll(w1, p.value.row, p.value.topics);
    }
  }

  /** A fill of an order whose native id and order number the session has indexed. */
  ghost predicate FillOf(env: Env, st: State, k: Key, f: Fill) {
    && k in st.world.rows
    && var n := st.world.rows[k].native;
       && n in st.world.session.identityByNative && n in st.world.session.orderNoByNative
       && f.resolved && (f.orderNo, f.serverFlag) == env.pair(n)
  }

  /**
   * The row such a fill adds is the order's own: owner, client order id and
   * symbol are those of the order, every native column is in its field, it comes
   * after all rows, and it is announced to the account and to the strategy.
   */
  lemma FillOfOrder(env: Env, events: seq<Event>, st: State, k: Key, f: Fill, found: Option<Key>, gap: nat)
    requires Proper(env) && Honestly(env, events, st) && FillOf(env, st, k, f)
    requires Enabled(env, st, Filled(f, found, gap))
    ensures var st' := Step(env, st, Filled(f, found, gap));
            if st'.publishing.None? then st'.world.trades == st.world.trades
            else
              var row := st'.publishing.value.row;
              && st'.world.trades == st.world.trades + [row] && T.Ascending(st'.world.trades)
              && CarriesFill(row.trade, f) && CarriesOrder(row.trade, k, st.world.rows[k].symbol)
              && CarriesEvent(env.digest, row.trade)
              && st'.publishing.value.topics ==
                   ["trades." + f.accountId, "trades." + f.accountId + "." + k.strategyId]
  {
    RunIndexes(env, events, st, false);
    assert st.world.rows[k].native != "";
    FillAttributed(env, events, st, k, found);
    RecordedRow(env.digest, st.world, f, found, gap);
    RunPublished(env, events, st);
    RecordPublished(env, st.world, f, found, gap);
  }

  /** A fill that neither the session nor the store can name an order for belongs to nobody. */
  lemma FillOfNobody(env: Env, events: seq<Event>, st: State, f: Fill, gap: nat)
    requires Reaches(env, START, events, st) && Enabled(env, st, Filled(f, None, gap)) && f.resolved
    requires (f.orderNo, f.serverFlag) !in st.world.session.nativeByOrderKey
    requires f.orderNo == "" ==> "" !in st.world.session.identityByNative
    ensures var st' := Step(env, st, Filled(f, None, gap));
            if st'.publishing.None? then st'.world.trades == st.world.trades
            else
              var row := st'.publishing.value.row;
              && st'.world.trades == st.world.trades + [row]
              && CarriesFill(row.trade, f) && CarriesNobody(row.trade, "", f.symbol)
              && st'.publishing.value.topics == ["trades." + f.accountId]
  {
    RecordedRow(env.digest, st.world, f, None, gap);
  }

  /**
   * A new row is read by its owner and by nobody else: the next page of a client
   * that had read everything is exactly this row, and any other client's is empty.
   */
  lemma OwnerReadsRow(rows: seq<T.Row>, row: T.Row, k: Key, symbol: string, owner: Owner, limit: int)
    requires T.Ascending(rows + [row]) && CarriesOrder(row.trade, k, symbol)
    ensures var cursor := T.LatestCursor(rows, owner);
            var page := T.ListTrades(rows + [row], owner, cursor, limit);
            if owner.clientId == k.clientId && owner.strategyId == k.strategyId
            then page == T.Page([row], row.id, false) && T.LatestCursor(rows + [row], owner) == row.id
            else page == T.Page([], cursor, false) && T.LatestCursor(rows + [row], owner) == cursor
  {
    var cursor := T.LatestCursor(rows, owner);
    LatestBelow(rows, row, owner);
    T.MatchingEmpty(rows, owner, cursor);
    LastMatches(rows, row, owner, cursor);
    ShortPage(rows + [row], owner, cursor, limit);
  }

  lemma ShortPage(rows: seq<T.Row>, owner: Owner, cursor: int, limit: int)
    requires cursor >= 0 && |T.Matching(rows, owner, cursor)| <= 1
    ensures var m := T.Matching(rows, owner, cursor);
            T.ListTrades(rows, owner, cursor, limit) == T.Page(m, if m == [] then cursor else m[0].id, false)
  {
    assert T.PageSize(limit) >= 1;
  }

  lemma LatestBelow(rows: seq<T.Row>, row: T.Row, owner: Owner)
    requires T.Ascending(rows + [row])
    ensures 0 <= T.LatestCursor(rows, owner) < row.id
    ensures forall r :: r in rows && r.trade.owner == owner ==> r.id <= T.LatestCursor(rows, owner)
  {
    var after, cursor := rows + [row], T.LatestCursor(rows, owner);
    assert after[..|rows|] == rows && after[|rows|] == row;
    T.MatchingLast(after, owner, 0);
    T.LatestIsMaximum(rows, owner);
    if cursor > 0 {
      var r :| r in rows && r.trade.owner == owner && r.id == cursor;
      var i :| 0 <= i < |rows| && rows[i] == r;
      assert after[i].id < after[|rows|].id;
    }
  }

  lemma LastMatches(rows: seq<T.Row>, row: T.Row, owner: Owner, after: int)
    ensures T.Matching(rows + [row], owner, after) ==
              T.Matching(rows, owner, after) + if row.id > after && row.trade.owner == owner then [row] else []
    ensures T.LatestCursor(rows + [row], owner) ==
              var before := T.LatestCursor(rows, owner);
              if row.trade.owner == owner && row.id > before then row.id else before
  {
    assert (rows + [row])[..|rows|] == rows && (rows + [row])[|rows|] == row;
  }

  /** No page of another owner ever shows it. */
  lemma OthersNeverRead(rows: seq<T.Row>, row: T.Row, k: Key, symbol: string, owner: Owner, afterId: int, limit: int)
    requires CarriesOrder(row.trade, k, symbol) && row in T.ListTrades(rows, owner, afterId, limit).trades
    ensures owner.clientId == k.clientId && owner.strategyId == k.strategyId && row in rows
  {
    var m := T.Matching(rows, owner, T.Start(afterId));
    T.MatchingIsFilter(rows, owner, T.Start(afterId));
    assert row in m;
  }

  /**
   * Over every run with crashes each stored row is one delivered fill: it carries
   * that fill's columns and belongs to the order the session knew it by then.
   */
  lemma RowsAreFills(env: Env, events: seq<Event>, st: State, row: T.Row) returns (n: nat, topics: seq<string>)
    requires Reaches(env, START, events, st) && row in st.world.trades
    ensures Delivers(events, n) && Begins(env, events, n, Publishing(row, topics))
    ensures CarriesFill(row.trade, events[n].fill) && CarriesEvent(env.digest, row.trade)
    ensures var a := Knowledge(env, events, n); Belongs(row, topics, events[n].fill, a.native, a.identity)
  {
    var p;
    n, p := RowBegins(env, events, st, row);
    topics := p.topics;
    assert events[..n + 1][..n] == events[..n];
    var before := Run(env, START, events[..n]).value;
    var e := events[n];
    RecordedRow(env.digest, before.world, e.fill, e.found, e.gap);
  }
}
