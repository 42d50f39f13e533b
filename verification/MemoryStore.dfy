/** The in-process store: one object holding the order table and the fill table. */
module MemoryStore {
  import opened Prelude
  import opened Text
  import opened OrderStore
  import T = TradeStore

  datatype StoreError = MissingKey | MissingEventId

  class MemoryOrderStore {
    var order: seq<Key>
    var records: map<Key, Record>
    var trades: seq<T.Row>
    var tradeEventIds: set<string>

    ghost predicate Valid()
      reads this
    {
      && Table().Valid()
      && (forall i :: 0 <= i < |trades| ==> trades[i].id == i + 1)
      && T.UniqueEvents(trades)
      && (forall e :: e in tradeEventIds <==> T.Known(trades, e))
    }

    ghost function Table(): Orders
      reads this
    {
      Orders(order, records)
    }

    constructor ()
      ensures Valid() && Table() == Orders([], map[]) && trades == []
    {
      order, records, trades, tradeEventIds := [], map[], [], {};
    }

    method Reserve(k: Key, symbol: string) returns (reserved: bool)
      requires Valid()
      modifies this`order, this`records
      ensures Valid()
      ensures reserved == (k !in old(records))
      ensures Table() == OrderStore.Reserve(old(Table()), k, symbol)
    {
      if k in records {
        return false;
      }
      ReserveValid(Table(), k, symbol);
      order, records := order + [k], records[k := NewRecord(symbol)];
      return true;
    }

    method Get(k: Key) returns (r: Option<Record>)
      ensures r == if k in records then Some(records[k]) else None
    {
      return if k in records then Some(records[k]) else None;
    }

    /** The linear search both lookups share. */
    method Find(p: Probe) returns (r: Option<Key>)
      requires Valid()
      ensures r == Scan(order, records, p)
    {
      var i := 0;
      while i < |order|
        invariant 0 <= i <= |order|
        invariant Scan(order, records, p) == Scan(order[i..], records, p)
      {
        assert order[i..][1..] == order[i + 1..];
        if Hits(records[order[i]], p) {
          return Some(order[i]);
        }
        i := i + 1;
      }
      return None;
    }

    method FindByNative(native: string) returns (r: Option<Key>)
      requires Valid()
      ensures r == FindNative(Table(), native)
    {
      if native == "" {
        return None;
      }
      r := Find(ByNative(native));
    }

    method FindByOrderNo(orderNo: string, serverFlag: string) returns (r: Option<Key>)
      requires Valid()
      ensures r == FindOrderNo(Table(), orderNo, serverFlag)
    {
      r := Find(ByOrderNo(orderNo, serverFlag));
    }

    method SetNative(k: Key, native: string) returns (r: Result<(), StoreError>)
      requires Valid()
      modifies this`records
      ensures Valid()
      ensures r.Ok? <==> k in old(records)
      ensures Table() == if k in old(records) then OrderStore.SetNative(old(Table()), k, native) else old(Table())
    {
      if k !in records {
        return Err(MissingKey);
      }
      records := records[k := records[k].(native := native, status := Accepted)];
      return Ok(());
    }

    method UpdateTap(native: string, orderNo: string, serverFlag: string, status: Status)
      requires Valid()
      modifies this`records
      ensures Valid()
      ensures Table() == OrderStore.UpdateTap(old(Table()), native, orderNo, serverFlag, status)
    {
      var found := FindByNative(native);
      if found.Some? {
        records := records[found.value := Updated(records[found.value], orderNo, serverFlag, status)];
      }
    }

    method MarkFailed(k: Key, message: string) returns (r: Result<(), StoreError>)
      requires Valid()
      modifies this`records
      ensures Valid()
      ensures r.Ok? <==> k in old(records)
      ensures Table() == if k in old(records) then OrderStore.MarkFailed(old(Table()), k, message) else old(Table())
    {
      if k !in records {
        return Err(MissingKey);
      }
      records := records[k := records[k].(status := SubmitFailed, message := message)];
      return Ok(());
    }

    /** Stores a fill once; the cursor is None for a fill already stored. */
    method RecordTrade(trade: T.Trade) returns (r: Result<Option<int>, StoreError>)
      requires Valid()
      modifies this`trades, this`tradeEventIds
      ensures Valid()
      ensures r.Err? <==> Strip(trade.eventId) == ""
      ensures r.Err? ==> trades == old(trades)
      ensures r.Ok? ==> (trades, r.value) == T.Record(old(trades), trade, 0)
    {
      var eventId := Strip(trade.eventId);
      if eventId == "" {
        return Err(MissingEventId);
      }
      if eventId in tradeEventIds {
        return Ok(None);
      }
      var cursor := |trades| + 1;
      T.RecordKeepsTable(trades, trade, 0);
      ghost var before := trades;
      tradeEventIds := tradeEventIds + {eventId};
      trades := trades + [T.Row(cursor, trade)];
      forall e
        ensures e in tradeEventIds <==> T.Known(trades, e)
      {
        if T.Known(before, e) {
          var i :| 0 <= i < |before| && T.Event(before[i]) == e;
          assert T.Event(trades[i]) == e;
        }
      }
      return Ok(Some(cursor));
    }

    method ListTrades(owner: Owner, afterId: int, limit: int) returns (page: T.Page)
      ensures page == T.ListTrades(trades, owner, afterId, limit)
    {
      var size := T.PageSize(limit);
      var cursor := T.Start(afterId);
      var matching: seq<T.Row> := [];
      for i := 0 to |trades|
        invariant matching == T.Matching(trades[..i], owner, cursor)
      {
        assert trades[..i + 1][..i] == trades[..i];
        if T.Selects(trades[i], owner, cursor) {
          matching := matching + [trades[i]];
        }
      }
      assert trades[..|trades|] == trades;
      var rows := if |matching| <= size then matching else matching[..size];
      page := T.Page(rows, if rows == [] then cursor else rows[|rows| - 1].id, |matching| > size);
    }

    method LatestTradeCursor(owner: Owner) returns (cursor: int)
      ensures cursor == T.LatestCursor(trades, owner)
    {
      cursor := 0;
      for i := 0 to |trades|
        invariant cursor == T.LatestCursor(trades[..i], owner)
      {
        assert trades[..i + 1][..i] == trades[..i];
        if trades[i].trade.owner == owner && trades[i].id > cursor {
          cursor := trades[i].id;
        }
      }
      assert trades[..|trades|] == trades;
    }
  }
}
