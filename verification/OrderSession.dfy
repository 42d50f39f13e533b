/**
 * The order side of the native session as the object it is: dictionaries
 * updated in place over a store. Every method is tied to the transition
 * system's functions, so what is proved of runs holds of the object.
 */
module OrderSession {
  import opened Prelude
  import opened Text
  import Symbols
  import opened OrderStore
  import opened OrderLifecycle
  import opened CommandAnswers
  import T = TradeStore
  import MemoryStore

  /** What `insertOrder` is handed, apart from account and client settings. */
  datatype NativeOrder = NativeOrder(
    exchange: string, commodityType: string, commodity: string, contract: string,
    side: string, price: real, volume: int)

  predicate IsSide(direction: string) {
    direction == "BUY" || direction == "SELL"
  }

  /** The native order for a parsed contract: one-letter side, columns in their places. */
  predicate OrdersNatively(o: NativeOrder, s: Symbols.Symbol, direction: string, price: real, volume: int) {
    && o.exchange == s.exchangeNo && o.commodityType == s.commodityType
    && o.commodity == s.commodityNo && o.contract == s.contractNo
    && o.side == (if direction == "BUY" then "B" else "S") && o.price == price && o.volume == volume
  }

  datatype Failure = NotReady | BadSymbol | SubmissionFailed(message: string) | NoNativeId

  /** What the native callback delivers about an order. */
  datatype OrderData = OrderData(errorCode: int, native: string, orderNo: string, serverFlag: string, state: string,
      resolved: bool)

  function StatusOf(state: string, rejected: bool): (s: Status)
    ensures Reported(s)
  {
    if rejected then Rejected
    else if state == "0" || state == "1" || state == "2" then Submitted
    else if state == "3" then PartTraded
    else if state == "4" then Traded
    else if state == "5" || state == "6" then Cancelled
    else if state == "9" then Rejected
    else Unknown
  }

  function UpdateOf(d: OrderData): OrderUpdate {
    OrderUpdate(d.native, d.orderNo, d.serverFlag, StatusOf(d.state, d.errorCode != 0), d.resolved)
  }

  /** The order table after the callback, in terms of what it delivered. */
  ghost predicate CallbackStores(rows: map<Key, Record>, rows': map<Key, Record>, d: OrderData) {
    exists s :: StatusShows(d.state, d.errorCode != 0, s)
                && UpdateStores(rows, rows', OrderUpdate(d.native, d.orderNo, d.serverFlag, s, d.resolved))
  }

  lemma StatusMeans(state: string, error: bool)
    ensures StatusShows(state, error, StatusOf(state, error))
  {
  }

  /** Each callback stores what its letter and its error code mean, in the one record it is about. */
  lemma CallbackAnswers(w: World, d: OrderData, found: Option<Key>)
    requires d.native != "" ==> Answers(w.rows, ByNative(d.native), found)
    ensures CallbackStores(w.rows, UpdateOrder(w, UpdateOf(d), found).rows, d)
  {
    StatusMeans(d.state, d.errorCode != 0);
    UpdateAnswers(w, UpdateOf(d), found);
  }

  lemma EventIdNotBlank(id: string)
    ensures Strip("trade:tap:" + id) != ""
  {
    var s := "trade:tap:" + id;
    var pre, post := StripSplits(s);
    assert s[0] == 't';
    assert forall i :: 0 <= i < |pre + post| ==> IsSpace((pre + post)[i]);
  }

  /** The reservation and the submission. */
  function Sent(w: World, k: Key, symbol: string): World {
    w.(rows := w.rows[k := NewRecord(symbol)], log := w.log.(inserts := w.log.inserts + [k]))
  }

  lemma AcceptingSteps(w: World, k: Key, symbol: string, n: string)
    ensures var s := Sent(w, k, symbol);
            Accepting(w, k, symbol, n) == s.(
              rows := s.rows[k := s.rows[k].(native := n, status := Accepted)],
              session := Identify(s.session, n, Identity(k, symbol)),
              log := s.log.(issued := s.log.issued + {n}, replies := s.log.replies + [Placed(k, n)]))
  {
    assert Sent(w, k, symbol).rows[k := Record(symbol, n, "", "", Accepted, "")] ==
      w.rows[k := Record(symbol, n, "", "", Accepted, "")];
  }

  lemma RefusingSteps(w: World, k: Key, symbol: string, m: string)
    ensures var s := Sent(w, k, symbol);
            Refusing(w, k, symbol, m) == s.(
              rows := s.rows[k := s.rows[k].(status := SubmitFailed, message := m)],
              log := s.log.(replies := s.log.replies + [Refusal(k, m)]))
  {
    assert Sent(w, k, symbol).rows[k := Record(symbol, "", "", "", SubmitFailed, m)] ==
      w.rows[k := Record(symbol, "", "", "", SubmitFailed, m)];
  }

  class OrderSession {
    const store: MemoryStore.MemoryOrderStore
    const digest: FillId -> string
    var identityByNative: map<string, Identity>
    var nativeByIdentity: map<Key, string>
    var orderNoByNative: map<string, string>
    var nativeByOrderKey: map<(string, string), string>
    var serverFlagByNative: map<string, string>
    var pendingCancels: set<string>
    ghost var log: Log
    ghost var sent: seq<NativeOrder>

    function Session(): Session
      reads this
    {
      OrderLifecycle.Session(identityByNative, nativeByIdentity, orderNoByNative, nativeByOrderKey, serverFlagByNative,
        pendingCancels)
    }

    ghost function View(): World
      reads this, store
    {
      World(store.records, store.trades, Session(), log)
    }

    /** Order numbers and server flags are learned together; only known native ids wait for a cancel. */
    ghost predicate Valid()
      reads this, store
    {
      store.Valid() && orderNoByNative.Keys == serverFlagByNative.Keys && "" !in pendingCancels
    }

    /** A restarted session rebuilds its indexes from the store's listing. */
    constructor (store: MemoryStore.MemoryOrderStore, digest: FillId -> string, ghost log: Log)
      requires store.Valid()
      ensures Valid() && this.store == store && this.digest == digest && this.log == log && sent == []
      ensures Session() == HydrateAll(store.order, store.records)
    {
      this.store, this.digest, this.log, sent := store, digest, log, [];
      identityByNative, nativeByIdentity, orderNoByNative := map[], map[], map[];
      nativeByOrderKey, serverFlagByNative, pendingCancels := map[], map[], {};
      new;
      for i := 0 to |store.order|
        modifies this
        invariant Valid() && this.log == log && sent == []
        invariant Session() == HydrateAll(store.order[..i], store.records)
      {
        HydrateRecord(store.order[i], store.records[store.order[i]]);
        assert store.order[..i + 1][..i] == store.order[..i];
      }
      assert store.order[..|store.order|] == store.order;
    }

    method HydrateRecord(k: Key, r: Record)
      requires Valid()
      modifies this`identityByNative, this`nativeByIdentity, this`orderNoByNative, this`nativeByOrderKey,
               this`serverFlagByNative
      ensures Valid() && Session() == Hydrate(old(Session()), k, r)
    {
      if r.native != "" {
        identityByNative := identityByNative[r.native := Identity(k, r.symbol)];
        nativeByIdentity := nativeByIdentity[k := r.native];
      }
      if r.native != "" && r.orderNo != "" {
        LearnOrderNo(r.native, r.orderNo, r.serverFlag);
      }
    }

    method LearnOrderNo(native: string, orderNo: string, serverFlag: string)
      requires Valid()
      modifies this`orderNoByNative, this`nativeByOrderKey, this`serverFlagByNative
      ensures Valid() && Session() == Learn(old(Session()), native, orderNo, serverFlag)
    {
      orderNoByNative := orderNoByNative[native := orderNo];
      nativeByOrderKey := nativeByOrderKey[(orderNo, serverFlag) := native];
      serverFlagByNative := serverFlagByNative[native := serverFlag];
    }

    /** The exchange accepted the reserved order: store its native id, then index it. */
    method Install(k: Key, symbol: string, native: string)
      requires Valid() && k in store.records
      modifies this`identityByNative, this`nativeByIdentity, this`log, store`records
      ensures Valid()
      ensures View() == old(View()).(
                rows := old(store.records)[k := old(store.records)[k].(native := native, status := Accepted)],
                session := Identify(old(Session()), native, Identity(k, symbol)),
                log := old(log).(issued := old(log).issued + {native},
                                 replies := old(log).replies + [Placed(k, native)]))
    {
      log := log.(issued := log.issued + {native});
      var stored := store.SetNative(k, native);
      identityByNative := identityByNative[native := Identity(k, symbol)];
      nativeByIdentity := nativeByIdentity[k := native];
      log := log.(replies := log.replies + [Placed(k, native)]);
    }

    /** The exchange refused it: the record keeps the reason. */
    method Refuse(k: Key, message: string)
      requires Valid() && k in store.records
      modifies this`log, store`records
      ensures Valid()
      ensures View() == old(View()).(
                rows := old(store.records)[k := old(store.records)[k].(status := SubmitFailed, message := message)],
                log := old(log).(replies := old(log).replies + [Refusal(k, message)]))
    {
      var marked := store.MarkFailed(k, message);
      log := log.(replies := log.replies + [Refusal(k, message)]);
    }

    /** Reserve the key, then hand the order to the exchange. */
    method ReserveAndSend(k: Key, symbol: string, order: NativeOrder)
      requires Valid() && k !in store.records
      modifies this`log, this`sent, store`order, store`records
      ensures Valid() && k in store.records && sent == old(sent) + [order]
      ensures View() == Sent(old(View()), k, symbol)
    {
      var reserved := store.Reserve(k, symbol);
      log := log.(inserts := log.inserts + [k]);
      sent := sent + [order];
    }

    /** The first submission of a key: reserve, call the exchange, keep its answer. */
    method Submit(k: Key, info: Symbols.Symbol, direction: string, price: real, volume: int, outcome: InsertOutcome)
        returns (r: Result<Reply, Failure>)
      requires Valid() && k !in store.records && IsSide(direction)
      modifies this, store
      ensures Valid()
      ensures |sent| == |old(sent)| + 1 && old(sent) < sent
              && OrdersNatively(sent[|old(sent)|], info, direction, price, volume)
      ensures View() == RunCall(old(View()), Call(k, Symbols.Canonical(info), Looking), outcome)
      ensures Refused(outcome).Some? ==> r == Err(SubmissionFailed(Refused(outcome).value))
      ensures Refused(outcome).None? ==> r == Ok(Placed(k, outcome.orderId))
      ensures log.replies == old(log.replies) + [if r.Ok? then r.value else Refusal(k, r.error.message)]
    {
      ghost var w := View();
      var symbol := Symbols.Canonical(info);
      var side := if direction == "BUY" then "B" else "S";
      ReserveAndSend(k, symbol, NativeOrder(info.exchangeNo, info.commodityType, info.commodityNo, info.contractNo,
                                            side, price, volume));
      var refused := Refused(outcome);
      if refused.Some? {
        Refuse(k, refused.value);
        CallRefused(w, k, symbol, outcome);
        RefusingSteps(w, k, symbol, refused.value);
        return Err(SubmissionFailed(refused.value));
      }
      Install(k, symbol, outcome.orderId);
      CallAccepted(w, k, symbol, outcome.orderId);
      AcceptingSteps(w, k, symbol, outcome.orderId);
      return Ok(Placed(k, outcome.orderId));
    }

    /** `outcome` is what `insertOrder` does if it is called. */
    method PlaceOrder(ready: bool, k: Key, symbolText: string, direction: string, price: real, volume: int,
        outcome: InsertOutcome)
        returns (r: Result<Reply, Failure>)
      requires Valid() && IsSide(direction)
      modifies this, store
      ensures Valid()
      ensures var parsed := Symbols.Parse(symbolText);
              if ready && parsed.Some? && k !in old(store.records)
              then |sent| == |old(sent)| + 1 && old(sent) < sent
                   && OrdersNatively(sent[|old(sent)|], parsed.value, direction, price, volume)
              else sent == old(sent)
      ensures !ready ==> r == Err(NotReady) && View() == old(View())
      ensures ready && Symbols.Parse(symbolText).None? ==> r == Err(BadSymbol) && View() == old(View())
      ensures ready && Symbols.Parse(symbolText).Some? ==>
                var call := Call(k, Symbols.Canonical(Symbols.Parse(symbolText).value), Looking);
                && View() == RunCall(old(View()), call, outcome)
                && |log.replies| == |old(log.replies)| + 1
                && var reply := log.replies[|old(log.replies)|];
                   && (Repeats(old(View()), View(), k, reply)
                       || Submits(old(View()), View(), k, call.symbol, outcome, reply))
                   && r == if reply.Refusal? then Err(SubmissionFailed(reply.message)) else Ok(reply)
    {
      if !ready {
        return Err(NotReady);
      }
      var parsed := Symbols.Parse(symbolText);
      if parsed.None? {
        return Err(BadSymbol);
      }
      PlaceAnswers(View(), k, Symbols.Canonical(parsed.value), outcome);
      var existing := store.Get(k);
      if existing.Some? {
        if existing.value.native != "" {
          HydrateRecord(k, existing.value);
        }
        var reply := DuplicateOf(k, existing.value);
        log := log.(replies := log.replies + [reply]);
        return Ok(reply);
      }
      r := Submit(k, parsed.value, direction, price, volume, outcome);
    }

    method SendCancelNow(native: string, ghost parked: bool)
      requires Valid() && native in orderNoByNative
      modifies this`log
      ensures Valid() && View() == SendCancel(old(View()), native, parked)
    {
      var orderNo := orderNoByNative[native];
      var serverFlag := serverFlagByNative[native];
      log := log.(cancels := log.cancels + [CancelCall(native, orderNo, serverFlag, parked, log.crashes)]);
    }

    method CancelOrder(ready: bool, k: Key) returns (r: Result<CancelReply, Failure>)
      requires Valid()
      modifies this
      ensures Valid()
      ensures !ready ==> r == Err(NotReady) && View() == old(View())
      ensures ready ==>
                var (w, reply) := OrderLifecycle.CancelOrder(old(View()), k);
                View() == w && r == if reply.Unavailable? then Err(NoNativeId) else Ok(reply)
    {
      if !ready {
        return Err(NotReady);
      }
      var native := if k in nativeByIdentity then nativeByIdentity[k] else "";
      if native == "" {
        var record := store.Get(k);
        if record.Some? {
          HydrateRecord(k, record.value);
          native := record.value.native;
        }
      }
      if native == "" {
        return Err(NoNativeId);
      }
      log := log.(asked := log.asked + {k});
      if native !in orderNoByNative {
        pendingCancels := pendingCancels + {native};
        log := log.(deferred := log.deferred + {(log.crashes, native)});
        return Ok(CancelPending);
      }
      SendCancelNow(native, false);
      return Ok(CancelSent);
    }

    /** The in-memory part of an order update. */
    method IndexOrder(d: OrderData)
      requires Valid()
      modifies this`identityByNative, this`nativeByIdentity, this`orderNoByNative, this`nativeByOrderKey,
               this`serverFlagByNative
      ensures Valid()
      ensures Session() == Indexed(old(View()), UpdateOf(d), FindNative(store.Table(), d.native))
      ensures d.native != "" && d.orderNo != "" ==> d.native in orderNoByNative
    {
      if d.native != "" && d.orderNo != "" {
        LearnOrderNo(d.native, d.orderNo, d.serverFlag);
      }
      if d.native !in identityByNative && d.native != "" {
        var record := store.FindByNative(d.native);
        if record.Some? {
          HydrateRecord(record.value, store.records[record.value]);
        }
      }
    }

    /** `on_order` and the update it leads to. */
    method OnOrder(d: OrderData)
      requires Valid()
      modifies this, store
      ensures Valid()
      ensures var found := FindNative(old(store.Table()), d.native);
              && (d.native != "" ==> Answers(old(store.records), ByNative(d.native), found))
              && View() == UpdateOrder(old(View()), UpdateOf(d), found)
      ensures CallbackStores(old(store.records), store.records, d)
    {
      ghost var w := View();
      CallbackAnswers(w, d, FindNative(store.Table(), d.native));
      IndexOrder(d);
      if !d.resolved {
        return;
      }
      var status := StatusOf(d.state, d.errorCode != 0);
      if d.native != "" {
        store.UpdateTap(d.native, d.orderNo, d.serverFlag, status);
      }
      if d.native in pendingCancels && d.orderNo != "" {
        pendingCancels := pendingCancels - {d.native};
        SendCancelNow(d.native, true);
      }
    }

    /** Whose fill is it: the in-memory order key first, then the store. */
    method AttributeFill(f: Fill) returns (native: string, identity: Option<Identity>)
      requires Valid()
      modifies this`identityByNative, this`nativeByIdentity, this`orderNoByNative, this`nativeByOrderKey,
               this`serverFlagByNative
      ensures Valid()
      ensures Attribution(Session(), native, identity)
           == Attribute(old(View()), f.orderNo, f.serverFlag, FindOrderNo(store.Table(), f.orderNo, f.serverFlag))
    {
      var key := (f.orderNo, f.serverFlag);
      native := if key in nativeByOrderKey then nativeByOrderKey[key] else "";
      identity := None;
      if native == "" && f.orderNo != "" {
        var found := store.FindByOrderNo(f.orderNo, f.serverFlag);
        if found.Some? {
          var record := store.records[found.value];
          HydrateRecord(found.value, record);
          identity := Some(Identity(found.value, record.symbol));
          native := record.native;
        }
      } else if native in identityByNative {
        identity := Some(identityByNative[native]);
      }
    }

    /** `_publish_scoped`: the account topic, then the strategy topic of a known order. */
    method PublishScoped(row: T.Row, accountId: string, identity: Option<Identity>)
      requires Valid()
      modifies this`log
      ensures Valid()
      ensures View() == PublishAll(old(View()), Some(Publishing(row, Topics(accountId, identity))))
      ensures var account := "trades." + accountId;
              log.published == old(log.published) + [Publication(account, row)]
                + if identity.Some? then [Publication(account + "." + identity.value.key.strategyId, row)] else []
    {
      var topics := Topics(accountId, identity);
      ghost var w, p := View(), Publishing(row, topics);
      log := log.(published := log.published + [Publication(topics[0], row)]);
      if identity.Some? {
        ghost var w' := View();
        log := log.(published := log.published + [Publication(topics[1], row)]);
        assert PublishNext(w, p) == (w', Some(p.(topics := topics[1..])));
        assert PublishNext(w', p.(topics := topics[1..])) == (View(), None);
        assert PublishAll(w', Some(p.(topics := topics[1..]))) == PublishAll(View(), None);
      } else {
        assert PublishNext(w, p) == (View(), None);
      }
    }

    /**
     * `on_fill`: attribute, store, then publish. A store that raises ends it like
     * a fill that does not resolve: nothing is stored and nothing published.
     */
    method OnFill(f: Fill, storeRaises: bool)
      requires Valid()
      modifies this, store
      ensures Valid()
      ensures var found := FindOrderNo(old(store.Table()), f.orderNo, f.serverFlag);
              && Answers(old(store.records), ByOrderNo(f.orderNo, f.serverFlag), found)
              && var (w, p) :=
                 RecordFill(digest, old(View()), if storeRaises then f.(resolved := false) else f, found, 0);
                 View() == PublishAll(w, p)
    {
      var native, identity := AttributeFill(f);
      if !f.resolved {
        return;
      }
      if storeRaises {
        return;
      }
      var trade := TradeOf(digest, f, Attribution(Session(), native, identity));
      EventIdNotBlank(digest(FillIdentity(f, Attribution(Session(), native, identity))));
      var cursor := store.RecordTrade(trade);
      if cursor.value.Some? {
        PublishScoped(T.Row(cursor.value.value, trade), f.accountId, identity);
      }
    }
  }
}
