/** What validation guarantees: a normal form, reached in one pass and changed by no second one. */
module RequestNormalForm {
  import opened Prelude
  import opened Text
  import Symbols
  import MarketData
  import Registry
  import opened Requests

  // ---- Identities ----

  predicate CleanText(v: Json) {
    v.JString? && v.text != "" && Strip(v.text) == v.text
  }

  predicate AllClean(n: Fields, names: seq<string>) {
    forall f :: f in names ==> f in n && CleanText(n[f])
  }

  /** The two read alike at this field. */
  predicate SameAt(m: Fields, n: Fields, f: string) {
    (f in m <==> f in n) && Get(m, f) == Get(n, f)
  }

  lemma StripTwice(s: string)
    ensures Strip(Strip(s)) == Strip(s)
  {
    var pre, post := StripSplits(s);
    StripFixed(Strip(s));
  }

  /** Listed fields come out clean, others as they were. */
  lemma {:induction false} StrippedField(n: Fields, names: seq<string>, f: string)
    requires Stripped(n, names).Ok?
    ensures var m := Stripped(n, names).value;
            if f in names then f in m && CleanText(m[f])
            else Get(m, f) == Get(n, f) && (f in m <==> f in n)
  {
    if names != [] {
      var k := |names| - 1;
      assert names == names[..k] + [names[k]];
      StrippedField(n, names[..k], f);
      StripTwice(Get(Stripped(n, names[..k]).value, names[k]).text);
    }
  }

  lemma {:induction false} StrippedFixed(n: Fields, names: seq<string>)
    requires AllClean(n, names)
    ensures Stripped(n, names) == Ok(n)
  {
    if names != [] {
      var k := |names| - 1;
      assert names == names[..k] + [names[k]];
      assert names[k] in names;
      StrippedFixed(n, names[..k]);
      assert n[names[k] := n[names[k]]] == n;
    }
  }

  lemma {:induction false} StrippedError(n: Fields, names: seq<string>)
    requires Stripped(n, names).Err?
    ensures Stripped(n, names).error == Invalid
  {
    if names != [] && Stripped(n, names[..|names| - 1]).Err? {
      StrippedError(n, names[..|names| - 1]);
    }
  }

  /** Normalising an identity changes nothing exactly when every field is a trimmed, non-empty text. */
  lemma IdentityFixed(n: Fields, names: seq<string>)
    ensures Identified(n, names) == Ok(n) <==> AllClean(n, names)
  {
    if AllClean(n, names) {
      StrippedFixed(n, names);
    } else if Identified(n, names) == Ok(n) {
      forall f | f in names ensures f in n && CleanText(n[f]) {
        StrippedField(n, names, f);
      }
    }
  }

  lemma IdentityResult(n: Fields, names: seq<string>)
    requires Identified(n, names).Ok?
    ensures AllClean(Identified(n, names).value, names)
  {
    var m := Identified(n, names).value;
    forall f | f in names ensures f in m && CleanText(m[f]) {
      StrippedField(n, names, f);
    }
  }

  lemma IdentityOther(n: Fields, names: seq<string>, f: string)
    requires Identified(n, names).Ok? && f !in names
    ensures SameAt(Identified(n, names).value, n, f)
  {
    StrippedField(n, names, f);
  }

  lemma CleanKept(n: Fields, m: Fields, names: seq<string>)
    requires AllClean(n, names) && forall f :: f in names ==> SameAt(m, n, f)
    ensures AllClean(m, names)
  {
    forall f | f in names ensures f in m && CleanText(m[f]) {
      assert SameAt(m, n, f);
    }
  }

  // ---- Symbols ----

  predicate CanonicalText(v: Json) {
    v.JString? && MarketData.IsCanonical(v.text)
  }

  lemma CanonicalResult(v: Json)
    ensures CanonicalOf(v).Some? ==> MarketData.IsCanonical(CanonicalOf(v).value)
    ensures CanonicalText(v) ==> CanonicalOf(v) == Some(v.text)
  {
    if CanonicalOf(v).Some? {
      Symbols.ParseCanonical(v.text);
    }
  }

  /** Item by item: the names are the canonical forms, and exist when every item has one. */
  lemma {:induction false} CanonicalItemsAt(items: seq<Json>)
    ensures CanonicalItems(items).Some? <==> forall i :: 0 <= i < |items| ==> CanonicalOf(items[i]).Some?
    ensures CanonicalItems(items).Some? ==>
              && |CanonicalItems(items).value| == |items|
              && forall i :: 0 <= i < |items| ==> CanonicalOf(items[i]) == Some(CanonicalItems(items).value[i])
  {
    if items != [] {
      var k := |items| - 1;
      CanonicalItemsAt(items[..k]);
      assert items == items[..k] + [items[k]];
      if CanonicalItems(items).Some? {
        forall i | 0 <= i < |items| ensures CanonicalOf(items[i]) == Some(CanonicalItems(items).value[i]) {
          if i < k { assert items[..k][i] == items[i]; }
        }
      }
    }
  }

  ghost predicate NamedBy(items: seq<Json>, names: seq<string>) {
    |items| == |names| && forall i :: 0 <= i < |items| ==> CanonicalOf(items[i]) == Some(names[i])
  }

  lemma NamedMember(items: seq<Json>, names: seq<string>, x: string)
    requires NamedBy(items, names)
    ensures x in names <==> exists i :: 0 <= i < |items| && CanonicalOf(items[i]) == Some(x)
  {
    if x in names {
      var i :| 0 <= i < |names| && names[i] == x;
      assert CanonicalOf(items[i]) == Some(x);
    } else {
      forall i | 0 <= i < |items| ensures CanonicalOf(items[i]) != Some(x) {
        assert names[i] in names;
      }
    }
  }

  lemma NamedMeaning(items: seq<Json>, names: seq<string>)
    requires NamedBy(items, names)
    ensures forall x :: x in names ==> MarketData.IsCanonical(x)
    ensures forall x :: x in names <==> exists i :: 0 <= i < |items| && CanonicalOf(items[i]) == Some(x)
  {
    forall x ensures x in names <==> exists i :: 0 <= i < |items| && CanonicalOf(items[i]) == Some(x) {
      NamedMember(items, names, x);
    }
    forall x | x in names ensures MarketData.IsCanonical(x) {
      var i :| 0 <= i < |names| && names[i] == x;
      CanonicalResult(items[i]);
    }
  }

  predicate AllParse(items: seq<Json>) {
    forall i :: 0 <= i < |items| ==> CanonicalOf(items[i]).Some?
  }

  lemma ItemsMeaning(items: seq<Json>)
    ensures CanonicalItems(items).Some? <==> AllParse(items)
    ensures CanonicalItems(items).Some? ==>
              var names := CanonicalItems(items).value;
              && (forall x :: x in names ==> MarketData.IsCanonical(x))
              && (forall x :: x in names <==> exists i :: 0 <= i < |items| && CanonicalOf(items[i]) == Some(x))
  {
    CanonicalItemsAt(items);
    if CanonicalItems(items).Some? {
      NamedMeaning(items, CanonicalItems(items).value);
    }
  }

  /**
   * Symbols are normalised to a duplicate-free list of canonical names, each in
   * the place of its first mention; it fails exactly when some item does not parse.
   */
  lemma SymbolsMeaning(v: Json)
    ensures NormalSymbols(v).Ok? <==> ItemsOf(v).Some? && AllParse(ItemsOf(v).value)
    ensures NormalSymbols(v).Ok? ==>
              var names, items := NormalSymbols(v).value, ItemsOf(v).value;
              && NoDup(names)
              && (forall x :: x in names ==> MarketData.IsCanonical(x))
              && (forall x :: x in names <==> exists i :: 0 <= i < |items| && CanonicalOf(items[i]) == Some(x))
  {
    if ItemsOf(v).Some? {
      var items := ItemsOf(v).value;
      ItemsMeaning(items);
      if CanonicalItems(items).Some? {
        var all := CanonicalItems(items).value;
        assert NormalSymbols(v).value == Distinct(all);
        assert forall x :: x in Distinct(all) <==> x in all;
      }
    }
  }

  lemma FirstMention(items: seq<Json>, all: seq<string>, p: int, q: int)
    requires NamedBy(items, all) && 0 <= p < q < |all| && all[q] !in all[..q]
    ensures CanonicalOf(items[p]) == Some(all[p]) && CanonicalOf(items[q]) == Some(all[q])
    ensures forall r :: 0 <= r < q ==> CanonicalOf(items[r]) != Some(all[q])
  {
    forall r | 0 <= r < q ensures CanonicalOf(items[r]) != Some(all[q]) {
      assert all[..q][r] == all[r];
    }
  }

  lemma FirstMentions(items: seq<Json>, all: seq<string>, i: nat, j: nat)
    requires NamedBy(items, all) && i < j < |Distinct(all)|
    ensures exists p, q ::
              && 0 <= p < q < |items|
              && CanonicalOf(items[p]) == Some(Distinct(all)[i]) && CanonicalOf(items[q]) == Some(Distinct(all)[j])
              && forall r :: 0 <= r < q ==> CanonicalOf(items[r]) != Some(Distinct(all)[j])
  {
    DistinctKeepsFirstOrder(all, i, j);
    var p, q :| 0 <= p < q < |all| && all[p] == Distinct(all)[i] && all[q] == Distinct(all)[j] && all[q] !in all[..q];
    FirstMention(items, all, p, q);
  }

  /** Of two listed names the earlier was mentioned before the first mention of the later. */
  lemma SymbolsKeepFirstOrder(v: Json, i: nat, j: nat)
    requires NormalSymbols(v).Ok? && i < j < |NormalSymbols(v).value|
    ensures var names, items := NormalSymbols(v).value, ItemsOf(v).value;
            exists p, q ::
              && 0 <= p < q < |items|
              && CanonicalOf(items[p]) == Some(names[i]) && CanonicalOf(items[q]) == Some(names[j])
              && forall r :: 0 <= r < q ==> CanonicalOf(items[r]) != Some(names[j])
  {
    CanonicalItemsAt(ItemsOf(v).value);
    FirstMentions(ItemsOf(v).value, CanonicalItems(ItemsOf(v).value).value, i, j);
  }

  lemma {:induction false} TextsFixed(names: seq<string>)
    requires forall x :: x in names ==> MarketData.IsCanonical(x)
    ensures CanonicalItems(Texts(names)) == Some(names)
  {
    if names != [] {
      var k := |names| - 1;
      assert names == names[..k] + [names[k]];
      assert Texts(names)[..k] == Texts(names[..k]);
      TextsFixed(names[..k]);
      CanonicalResult(Texts(names)[k]);
      assert CanonicalOf(Texts(names)[k]) == Some(names[k]);
    }
  }

  /** The normal form of a symbol list: canonical texts without repetition. */
  ghost predicate NormalList(v: Json) {
    && v.JList? && v.items != []
    && (forall i :: 0 <= i < |v.items| ==> CanonicalText(v.items[i]))
    && NoDup(v.items)
  }

  /** Such a list is a fixed point of the normaliser. */
  lemma ListFixed(v: Json)
    requires NormalList(v)
    ensures NormalSymbols(v).Ok? && NormalSymbols(v).value != [] && JList(Texts(NormalSymbols(v).value)) == v
  {
    var names := seq(|v.items|, i requires 0 <= i < |v.items| => v.items[i].text);
    assert Texts(names) == v.items;
    TextsFixed(names);
    forall i, j | 0 <= i < j < |names| ensures names[i] != names[j] {
      assert v.items[i] != v.items[j];
    }
    DistinctFixed(names);
  }

  lemma ListResult(v: Json)
    requires NormalSymbols(v).Ok? && NormalSymbols(v).value != []
    ensures NormalList(JList(Texts(NormalSymbols(v).value)))
  {
    SymbolsMeaning(v);
    var names := NormalSymbols(v).value;
    var items := Texts(names);
    forall i | 0 <= i < |items| ensures CanonicalText(items[i]) {
      assert names[i] in names;
    }
  }

  // ---- The normal form of a request ----

  ghost predicate NormalSubscription(n: Fields) {
    AllClean(n, ["client_id", "strategy_id"]) && "symbols" in n && NormalList(n["symbols"])
  }

  predicate NormalPlacement(n: Fields) {
    && AllClean(n, ["client_id", "strategy_id", "client_order_id"])
    && "symbol" in n && CanonicalText(n["symbol"])
    && "direction" in n && (n["direction"] == JString("BUY") || n["direction"] == JString("SELL"))
    && "price" in n && n["price"].JFloat? && n["price"].float.Finite? && n["price"].float.value > 0.0
    && "volume" in n && n["volume"].JInt? && n["volume"].number > 0
    && "offset" !in n
  }

  predicate NormalPaging(n: Fields) {
    && AllClean(n, ["client_id", "strategy_id"])
    && "after_id" in n && n["after_id"].JInt? && n["after_id"].number >= 0
    && "limit" in n && n["limit"].JInt? && 1 <= n["limit"].number <= 1000
  }

  predicate NormalQuery(a: Action, n: Fields) {
    && (a.GetOrders? && Truthy(Get(n, "local_only")) ==> AllClean(n, ["client_id", "strategy_id"]))
    && ("force_refresh" in n ==> n["force_refresh"].JBool?)
    && ("max_age_ms" in n ==> n["max_age_ms"].JInt? && n["max_age_ms"].number >= 0)
  }

  ghost predicate NormalBody(a: Action, n: Fields) {
    match a
    case Ping => true
    case Status => true
    case SubscribeMarketData => NormalSubscription(n)
    case UnsubscribeMarketData => NormalSubscription(n)
    case GetAccount => NormalQuery(a, n)
    case GetPositions => NormalQuery(a, n)
    case GetOrders => NormalQuery(a, n)
    case GetTrades => NormalPaging(n)
    case GetTradeCursor => AllClean(n, ["client_id", "strategy_id"])
    case PlaceOrder => NormalPlacement(n)
    case CancelOrder => AllClean(n, ["client_id", "strategy_id", "client_order_id"])
  }

  ghost predicate Normal(a: Action, n: Fields) {
    "action" in n && n["action"] == JString(NameOf(a)) && NormalBody(a, n)
  }

  lemma SubscriptionResult(n: Fields)
    requires Subscription(n).Ok?
    ensures NormalSubscription(Subscription(n).value)
  {
    var ids := ["client_id", "strategy_id"];
    var id := Identified(n, ids).value;
    IdentityResult(n, ids);
    ListResult(Get(id, "symbols"));
    CleanKept(id, Subscription(n).value, ids);
  }

  lemma SubscriptionFixed(n: Fields)
    requires NormalSubscription(n)
    ensures Subscription(n) == Ok(n)
  {
    IdentityFixed(n, ["client_id", "strategy_id"]);
    ListFixed(n["symbols"]);
    assert n["symbols" := n["symbols"]] == n;
  }

  lemma AmountsResult(nums: Numbers, n: Fields)
    requires Amounts(nums, n).Ok?
    ensures var m := Amounts(nums, n).value;
            && "direction" in m && (m["direction"] == JString("BUY") || m["direction"] == JString("SELL"))
            && "price" in m && m["price"].JFloat? && m["price"].float.Finite? && m["price"].float.value > 0.0
            && "volume" in m && m["volume"].JInt? && m["volume"].number > 0
  {
  }

  lemma PlacementParts(nums: Numbers, n: Fields) returns (id: Fields, m: Fields, r: Fields)
    requires Placement(nums, n).Ok?
    ensures Placement(nums, n) == Ok(r)
    ensures Identified(n, ["client_id", "strategy_id", "client_order_id"]) == Ok(id)
    ensures CanonicalOf(Get(id, "symbol")).Some?
            && m == (id - {"offset"})["symbol" := JString(CanonicalOf(Get(id, "symbol")).value)]
    ensures Amounts(nums, m) == Ok(r)
  {
    id := Identified(n, ["client_id", "strategy_id", "client_order_id"]).value;
    m := (id - {"offset"})["symbol" := JString(CanonicalOf(Get(id, "symbol")).value)];
    r := Placement(nums, n).value;
  }

  lemma AmountsOther(nums: Numbers, n: Fields, f: string)
    requires Amounts(nums, n).Ok? && f != "direction" && f != "price" && f != "volume"
    ensures SameAt(Amounts(nums, n).value, n, f)
  {
  }

  lemma PlacementOther(nums: Numbers, id: Fields, m: Fields, symbol: string, f: string)
    requires m == (id - {"offset"})["symbol" := JString(symbol)] && Amounts(nums, m).Ok?
    requires f !in {"direction", "price", "volume", "symbol", "offset"}
    ensures SameAt(Amounts(nums, m).value, id, f)
  {
    assert SameAt(m, id, f);
    AmountsOther(nums, m, f);
  }

  lemma PlacementClean(nums: Numbers, id: Fields, m: Fields, symbol: string, r: Fields, ids: seq<string>)
    requires m == (id - {"offset"})["symbol" := JString(symbol)] && Amounts(nums, m) == Ok(r)
    requires AllClean(id, ids) && forall f :: f in ids ==> f !in {"direction", "price", "volume", "symbol", "offset"}
    ensures AllClean(r, ids)
  {
    forall f | f in ids ensures SameAt(r, id, f) {
      PlacementOther(nums, id, m, symbol, f);
    }
    CleanKept(id, r, ids);
  }

  lemma PlacementResult(nums: Numbers, n: Fields)
    requires Placement(nums, n).Ok?
    ensures NormalPlacement(Placement(nums, n).value)
  {
    var id, m, r := PlacementParts(nums, n);
    IdentityResult(n, ["client_id", "strategy_id", "client_order_id"]);
    PlacedNormal(nums, id, m, r);
  }

  lemma PlacedNormal(nums: Numbers, id: Fields, m: Fields, r: Fields)
    requires AllClean(id, ["client_id", "strategy_id", "client_order_id"])
    requires CanonicalOf(Get(id, "symbol")).Some?
             && m == (id - {"offset"})["symbol" := JString(CanonicalOf(Get(id, "symbol")).value)]
    requires Amounts(nums, m) == Ok(r)
    ensures NormalPlacement(r)
  {
    PlacementSymbol(nums, id, m, r);
    AmountsResult(nums, m);
    PlacementClean(nums, id, m, CanonicalOf(Get(id, "symbol")).value, r,
      ["client_id", "strategy_id", "client_order_id"]);
  }

  lemma PlacementSymbol(nums: Numbers, id: Fields, m: Fields, r: Fields)
    requires CanonicalOf(Get(id, "symbol")).Some? && Amounts(nums, m) == Ok(r)
    requires m == (id - {"offset"})["symbol" := JString(CanonicalOf(Get(id, "symbol")).value)]
    ensures "symbol" in r && CanonicalText(r["symbol"]) && "offset" !in r
  {
    CanonicalResult(Get(id, "symbol"));
    AmountsOther(nums, m, "symbol");
    AmountsOther(nums, m, "offset");
  }

  lemma UpperSide(s: string)
    requires s == "BUY" || s == "SELL"
    ensures Upper(s) == s
  {
  }

  lemma AmountsFixed(nums: Numbers, n: Fields)
    requires NormalPlacement(n)
    ensures Amounts(nums, n) == Ok(n)
  {
    UpperSide(n["direction"].text);
    assert n["direction" := n["direction"]]["price" := n["price"]]["volume" := n["volume"]] == n;
  }

  lemma PlacementFixed(nums: Numbers, n: Fields)
    requires NormalPlacement(n)
    ensures Placement(nums, n) == Ok(n)
  {
    IdentityFixed(n, ["client_id", "strategy_id", "client_order_id"]);
    CanonicalResult(n["symbol"]);
    assert (n - {"offset"})["symbol" := n["symbol"]] == n;
    assert n["symbol"].text != "";
    AmountsFixed(nums, n);
  }

  lemma PagingResult(nums: Numbers, n: Fields)
    requires Paging(nums, n).Ok?
    ensures NormalPaging(Paging(nums, n).value)
  {
    var ids := ["client_id", "strategy_id"];
    IdentityResult(n, ids);
    CleanKept(Identified(n, ids).value, Paging(nums, n).value, ids);
  }

  lemma PagingFixed(nums: Numbers, n: Fields)
    requires NormalPaging(n)
    ensures Paging(nums, n) == Ok(n)
  {
    IdentityFixed(n, ["client_id", "strategy_id"]);
    assert n["after_id" := n["after_id"]] == n;
    assert n["limit" := n["limit"]] == n;
  }

  lemma QueryResult(nums: Numbers, a: Action, n: Fields)
    requires Query(nums, a, n).Ok?
    ensures NormalQuery(a, Query(nums, a, n).value)
  {
    var ids := ["client_id", "strategy_id"];
    if a.GetOrders? && Truthy(Get(n, "local_only")) {
      IdentityResult(n, ids);
      CleanKept(Identified(n, ids).value, Query(nums, a, n).value, ids);
    } else if a.GetOrders? {
      assert Get(Query(nums, a, n).value, "local_only") == Get(n, "local_only");
    }
  }

  lemma QueryFixed(nums: Numbers, a: Action, n: Fields)
    requires NormalQuery(a, n)
    ensures Query(nums, a, n) == Ok(n)
  {
    IdentityFixed(n, ["client_id", "strategy_id"]);
    if "max_age_ms" in n {
      assert n["max_age_ms" := n["max_age_ms"]] == n;
    }
  }

  lemma BodyResult(nums: Numbers, a: Action, n: Fields)
    requires Normalized(nums, a, n).Ok?
    ensures NormalBody(a, Normalized(nums, a, n).value)
  {
    match a {
      case SubscribeMarketData => SubscriptionResult(n);
      case UnsubscribeMarketData => SubscriptionResult(n);
      case GetAccount => QueryResult(nums, a, n);
      case GetPositions => QueryResult(nums, a, n);
      case GetOrders => QueryResult(nums, a, n);
      case GetTrades => PagingResult(nums, n);
      case GetTradeCursor => IdentityResult(n, ["client_id", "strategy_id"]);
      case PlaceOrder => PlacementResult(nums, n);
      case CancelOrder => IdentityResult(n, ["client_id", "strategy_id", "client_order_id"]);
      case Ping =>
      case Status =>
    }
  }

  lemma BodyFixed(nums: Numbers, a: Action, n: Fields)
    requires NormalBody(a, n)
    ensures Normalized(nums, a, n) == Ok(n)
  {
    match a {
      case SubscribeMarketData => SubscriptionFixed(n);
      case UnsubscribeMarketData => SubscriptionFixed(n);
      case GetAccount => QueryFixed(nums, a, n);
      case GetPositions => QueryFixed(nums, a, n);
      case GetOrders => QueryFixed(nums, a, n);
      case GetTrades => PagingFixed(nums, n);
      case GetTradeCursor => IdentityFixed(n, ["client_id", "strategy_id"]);
      case PlaceOrder => PlacementFixed(nums, n);
      case CancelOrder => IdentityFixed(n, ["client_id", "strategy_id", "client_order_id"]);
      case Ping =>
      case Status =>
    }
  }

  // ---- Fields a pass may touch ----

  /** The fields validation may change for an action. */
  function Touched(a: Action, n: Fields): set<string> {
    match a
    case Ping => {}
    case Status => {}
    case SubscribeMarketData => {"client_id", "strategy_id", "symbols"}
    case UnsubscribeMarketData => {"client_id", "strategy_id", "symbols"}
    case GetAccount => {"max_age_ms"}
    case GetPositions => {"max_age_ms"}
    case GetOrders => {"max_age_ms"} + if Truthy(Get(n, "local_only")) then {"client_id", "strategy_id"} else {}
    case GetTrades => {"client_id", "strategy_id", "after_id", "limit"}
    case GetTradeCursor => {"client_id", "strategy_id"}
    case PlaceOrder =>
      {"client_id", "strategy_id", "client_order_id", "symbol", "direction", "price", "volume", "offset"}
    case CancelOrder => {"client_id", "strategy_id", "client_order_id"}
  }

  lemma SubscriptionUntouched(n: Fields, f: string)
    requires Subscription(n).Ok? && f !in {"client_id", "strategy_id", "symbols"}
    ensures SameAt(Subscription(n).value, n, f)
  {
    IdentityOther(n, ["client_id", "strategy_id"], f);
  }

  lemma PlacementUntouched(nums: Numbers, n: Fields, f: string)
    requires Placement(nums, n).Ok?
    requires f !in {"client_id", "strategy_id", "client_order_id", "symbol", "direction", "price", "volume", "offset"}
    ensures SameAt(Placement(nums, n).value, n, f)
  {
    var id, m, r := PlacementParts(nums, n);
    IdentityOther(n, ["client_id", "strategy_id", "client_order_id"], f);
    PlacementOther(nums, id, m, CanonicalOf(Get(id, "symbol")).value, f);
  }

  lemma PagingUntouched(nums: Numbers, n: Fields, f: string)
    requires Paging(nums, n).Ok? && f !in {"client_id", "strategy_id", "after_id", "limit"}
    ensures SameAt(Paging(nums, n).value, n, f)
  {
    IdentityOther(n, ["client_id", "strategy_id"], f);
  }

  lemma QueryUntouched(nums: Numbers, a: Action, n: Fields, f: string)
    requires Query(nums, a, n).Ok? && f != "max_age_ms"
    requires a.GetOrders? && Truthy(Get(n, "local_only")) ==> f !in {"client_id", "strategy_id"}
    ensures SameAt(Query(nums, a, n).value, n, f)
  {
    if a.GetOrders? && Truthy(Get(n, "local_only")) {
      IdentityOther(n, ["client_id", "strategy_id"], f);
    }
  }

  lemma BodyUntouched(nums: Numbers, a: Action, n: Fields, f: string)
    requires Normalized(nums, a, n).Ok? && f !in Touched(a, n)
    ensures SameAt(Normalized(nums, a, n).value, n, f)
  {
    match a {
      case SubscribeMarketData => SubscriptionUntouched(n, f);
      case UnsubscribeMarketData => SubscriptionUntouched(n, f);
      case GetAccount => QueryUntouched(nums, a, n, f);
      case GetPositions => QueryUntouched(nums, a, n, f);
      case GetOrders => QueryUntouched(nums, a, n, f);
      case GetTrades => PagingUntouched(nums, n, f);
      case GetTradeCursor => IdentityOther(n, ["client_id", "strategy_id"], f);
      case PlaceOrder => PlacementUntouched(nums, n, f);
      case CancelOrder => IdentityOther(n, ["client_id", "strategy_id", "client_order_id"], f);
      case Ping =>
      case Status =>
    }
  }

  // ---- Whole requests ----

  predicate NoCapitals(s: string) {
    forall i :: 0 <= i < |s| ==> !('A' <= s[i] <= 'Z')
  }

  lemma LowerFixed(s: string)
    requires NoCapitals(s)
    ensures Lower(s) == s
  {
  }

  lemma QueryNamesAreLower(a: Action)
    requires a.Ping? || a.Status? || a.GetAccount? || a.GetPositions? || a.GetOrders? || a.GetTrades?
             || a.GetTradeCursor?
    ensures NoCapitals(NameOf(a))
  {
  }

  lemma CommandNamesAreLower(a: Action)
    requires a.SubscribeMarketData? || a.UnsubscribeMarketData? || a.PlaceOrder? || a.CancelOrder?
    ensures NoCapitals(NameOf(a))
  {
  }

  lemma NamesAreLower(a: Action)
    ensures NoCapitals(NameOf(a))
  {
    if a.SubscribeMarketData? || a.UnsubscribeMarketData? || a.PlaceOrder? || a.CancelOrder? {
      CommandNamesAreLower(a);
    } else {
      QueryNamesAreLower(a);
    }
  }

  lemma NamesAreTrimmed(a: Action)
    ensures Trimmed(NameOf(a)) && NameOf(a) != ""
  {
  }

  lemma NamesAreActions(a: Action)
    ensures ActionOf(NameOf(a)) == Some(a)
  {
  }

  lemma ActionFixed(a: Action, n: Fields)
    requires "action" in n && n["action"] == JString(NameOf(a))
    ensures ParseAction(n) == Ok(a)
  {
    NamesAreLower(a);
    NamesAreTrimmed(a);
    NamesAreActions(a);
    StripFixed(NameOf(a));
    LowerFixed(NameOf(a));
  }

  lemma AcceptedBody(nums: Numbers, request: Json) returns (a: Action, n: Fields)
    requires Validated(nums, request).Ok?
    ensures request.JObject? && n == request.fields["action" := JString(NameOf(a))]
    ensures Normalized(nums, a, n).Ok? && Validated(nums, request).value == (a, Normalized(nums, a, n).value)
  {
    a := ParseAction(request.fields).value;
    n := request.fields["action" := JString(NameOf(a))];
  }

  lemma ActionKept(nums: Numbers, a: Action, n: Fields)
    requires Normalized(nums, a, n).Ok?
    ensures SameAt(Normalized(nums, a, n).value, n, "action")
  {
    BodyUntouched(nums, a, n, "action");
  }

  lemma Together(a: Action, n: Fields, m: Fields)
    requires "action" in n && n["action"] == JString(NameOf(a)) && SameAt(m, n, "action") && NormalBody(a, m)
    ensures Normal(a, m)
  {
  }

  /** An accepted request is in normal form. */
  lemma AcceptedIsNormal(nums: Numbers, request: Json)
    requires Validated(nums, request).Ok?
    ensures Normal(Validated(nums, request).value.0, Validated(nums, request).value.1)
  {
    var a, n := AcceptedBody(nums, request);
    BodyResult(nums, a, n);
    ActionKept(nums, a, n);
    Together(a, n, Normalized(nums, a, n).value);
  }

  /** Validation returns a request unchanged exactly when it is in normal form. */
  lemma FixedPoints(nums: Numbers, a: Action, n: Fields)
    ensures Validated(nums, JObject(n)) == Ok((a, n)) <==> Normal(a, n)
  {
    if Normal(a, n) {
      ActionFixed(a, n);
      assert n["action" := JString(NameOf(a))] == n;
      BodyFixed(nums, a, n);
    } else if Validated(nums, JObject(n)) == Ok((a, n)) {
      AcceptedIsNormal(nums, JObject(n));
    }
  }

  /** Validating an accepted request again succeeds and changes nothing. */
  lemma Idempotent(nums: Numbers, request: Json)
    requires Validated(nums, request).Ok?
    ensures var (a, n) := Validated(nums, request).value; Validated(nums, JObject(n)) == Ok((a, n))
  {
    AcceptedIsNormal(nums, request);
    FixedPoints(nums, Validated(nums, request).value.0, Validated(nums, request).value.1);
  }

  /**
   * What the subscription layers below are handed: distinct names that the
   * session's own canonicalisation leaves as they are.
   */
  lemma AcceptedSubscription(nums: Numbers, request: Json) returns (names: seq<string>)
    requires Validated(nums, request).Ok?
    requires Validated(nums, request).value.0.SubscribeMarketData?
             || Validated(nums, request).value.0.UnsubscribeMarketData?
    ensures var n := Validated(nums, request).value.1; "symbols" in n && n["symbols"] == JList(Texts(names))
    ensures names != [] && NoDup(names) && MarketData.CanonicalAll(names) == Some(names)
  {
    AcceptedIsNormal(nums, request);
    var items := Validated(nums, request).value.1["symbols"].items;
    names := seq(|items|, i requires 0 <= i < |items| => items[i].text);
    assert Texts(names) == items;
    forall i, j | 0 <= i < j < |names| ensures names[i] != names[j] {
      assert items[i] != items[j];
    }
    forall x | x in names ensures MarketData.IsCanonical(x) {
      var i :| 0 <= i < |names| && names[i] == x;
      assert CanonicalText(items[i]);
    }
  }

  /**
   * The proxy registers the configured symbols in normalised form, the session
   * takes them as they are: the two layers agree at startup exactly when every
   * configured symbol is canonical.
   */
  lemma StartupAgrees(configured: seq<string>, names: seq<string>)
    requires NormalSymbols(JList(Texts(configured))) == Ok(names)
    ensures var registry := Registry.Subscribed(map[], Owner("proxy", "startup"), names).0;
            MarketData.Agree(MarketData.Layers(registry, ToSet(configured))) <==>
              forall x :: x in configured ==> MarketData.IsCanonical(x)
  {
    MarketData.AddedMeans(map[], Owner("proxy", "startup"), names);
    SameNames(configured, names);
  }

  lemma SameNames(configured: seq<string>, names: seq<string>)
    requires NormalSymbols(JList(Texts(configured))) == Ok(names)
    ensures ToSet(names) == ToSet(configured) <==> forall x :: x in configured ==> MarketData.IsCanonical(x)
  {
    SymbolsMeaning(JList(Texts(configured)));
    if forall x :: x in configured ==> MarketData.IsCanonical(x) {
      forall x ensures x in names <==> x in configured {
        ConfiguredName(configured, names, x);
      }
    } else if ToSet(names) == ToSet(configured) {
      forall x | x in configured ensures MarketData.IsCanonical(x) {
        assert x in ToSet(configured);
      }
    }
  }

  lemma ConfiguredName(configured: seq<string>, names: seq<string>, x: string)
    requires forall y :: y in configured ==> MarketData.IsCanonical(y)
    requires forall y :: y in names <==>
               exists i :: 0 <= i < |configured| && CanonicalOf(Texts(configured)[i]) == Some(y)
    ensures x in names <==> x in configured
  {
    forall i | 0 <= i < |configured| ensures CanonicalOf(Texts(configured)[i]) == Some(configured[i]) {
      assert configured[i] in configured;
      CanonicalResult(Texts(configured)[i]);
    }
  }

  /** Fields an action does not name pass through as they came. */
  lemma OthersPassThrough(nums: Numbers, request: Json, f: string)
    requires Validated(nums, request).Ok?
    requires f != "action" && f !in Touched(Validated(nums, request).value.0, request.fields)
    ensures SameAt(Validated(nums, request).value.1, request.fields, f)
  {
    var a := ParseAction(request.fields).value;
    var n := request.fields["action" := JString(NameOf(a))];
    assert Get(n, "local_only") == Get(request.fields, "local_only");
    BodyUntouched(nums, a, n, f);
  }

  // ---- How refusals are classified ----

  lemma IdentityError(n: Fields, names: seq<string>)
    requires Identified(n, names).Err?
    ensures Identified(n, names).error == Invalid
  {
    if Present(n, names) {
      StrippedError(n, names);
    }
  }

  /** An integer field holding an infinite number. */
  predicate Infinite(n: Fields, f: string) {
    f in n && (n[f] == JFloat(PosInf) || n[f] == JFloat(NegInf))
  }

  predicate TooLarge(nums: Numbers, v: Json) {
    v.JInt? && nums.floatOfInt(v.number).None?
  }

  lemma AmountsUnexpected(nums: Numbers, n: Fields)
    ensures Amounts(nums, n) == Err(Unexpected) <==>
              DirectionOf(Get(n, "direction")).Some? && TooLarge(nums, Get(n, "price"))
  {
  }

  lemma PresentKept(n: Fields, m: Fields, names: seq<string>)
    requires forall f :: f in names ==> SameAt(m, n, f)
    ensures Present(m, names) <==> Present(n, names)
  {
    forall f | f in names ensures Missing(Get(m, f)) == Missing(Get(n, f)) {
      assert SameAt(m, n, f);
    }
  }

  lemma PlacementRest(nums: Numbers, n: Fields, id: Fields)
    requires Identified(n, ["client_id", "strategy_id", "client_order_id"]) == Ok(id)
    ensures Placement(nums, n) == Err(Unexpected) <==>
              && Present(id, ["symbol", "direction", "price", "volume"])
              && (CanonicalOf(Get(id, "symbol")).None?
                 || (DirectionOf(Get(id, "direction")).Some? && TooLarge(nums, Get(id, "price"))))
  {
    if CanonicalOf(Get(id, "symbol")).Some? {
      AmountsUnexpected(nums, (id - {"offset"})["symbol" := JString(CanonicalOf(Get(id, "symbol")).value)]);
    }
  }

  /**
   * A complete order request is answered as an internal error that may be
   * retried exactly when its symbol does not parse, or its price is an integer
   * beyond the range of a double while its direction is one.
   */
  lemma PlacementUnexpected(nums: Numbers, n: Fields)
    ensures Placement(nums, n) == Err(Unexpected) <==>
              && Identified(n, ["client_id", "strategy_id", "client_order_id"]).Ok?
              && Present(n, ["symbol", "direction", "price", "volume"])
              && (CanonicalOf(Get(n, "symbol")).None?
                 || (DirectionOf(Get(n, "direction")).Some? && TooLarge(nums, Get(n, "price"))))
  {
    var ids, body := ["client_id", "strategy_id", "client_order_id"], ["symbol", "direction", "price", "volume"];
    if Identified(n, ids).Err? {
      IdentityError(n, ids);
    } else {
      var id := Identified(n, ids).value;
      PlacementRest(nums, n, id);
      forall f | f in body ensures SameAt(id, n, f) {
        IdentityOther(n, ids, f);
      }
      PresentKept(n, id, body);
      assert "symbol" in body && "direction" in body && "price" in body;
      assert SameAt(id, n, "symbol") && SameAt(id, n, "direction") && SameAt(id, n, "price");
    }
  }

  lemma IntUnexpected(nums: Numbers, n: Fields, f: string, default: Json)
    requires default.JInt? || default.JNull?
    ensures IntField(nums, n, f, default) == Err(Unexpected) <==> Infinite(n, f)
  {
  }

  lemma PagingUnexpected(nums: Numbers, n: Fields)
    ensures Paging(nums, n) == Err(Unexpected) <==>
              && Identified(n, ["client_id", "strategy_id"]).Ok?
              && (Infinite(n, "after_id") || (IntField(nums, n, "after_id", JInt(0)).Ok? && Infinite(n, "limit")))
  {
    var ids := ["client_id", "strategy_id"];
    if Identified(n, ids).Err? {
      IdentityError(n, ids);
    } else {
      var id := Identified(n, ids).value;
      IdentityOther(n, ids, "after_id");
      IdentityOther(n, ids, "limit");
      IntUnexpected(nums, id, "after_id", JInt(0));
      var after := IntField(nums, id, "after_id", JInt(0));
      if after.Ok? {
        IntUnexpected(nums, after.value, "limit", JInt(500));
      }
    }
  }

  lemma QueryUnexpected(nums: Numbers, a: Action, n: Fields)
    ensures Query(nums, a, n) == Err(Unexpected) <==>
              && (a.GetOrders? && Truthy(Get(n, "local_only")) ==> Identified(n, ["client_id", "strategy_id"]).Ok?)
              && ("force_refresh" in n ==> n["force_refresh"].JBool?)
              && Infinite(n, "max_age_ms")
  {
    var ids := ["client_id", "strategy_id"];
    var id := n;
    if a.GetOrders? && Truthy(Get(n, "local_only")) {
      if Identified(n, ids).Err? {
        IdentityError(n, ids);
        return;
      }
      id := Identified(n, ids).value;
      IdentityOther(n, ids, "force_refresh");
      IdentityOther(n, ids, "max_age_ms");
    }
    IntUnexpected(nums, id, "max_age_ms", JNull);
  }

  /** Whether an accepted action with this body escapes the protocol's own classification. */
  ghost predicate Escapes(nums: Numbers, a: Action, n: Fields) {
    match a
    case PlaceOrder =>
      && Identified(n, ["client_id", "strategy_id", "client_order_id"]).Ok?
      && Present(n, ["symbol", "direction", "price", "volume"])
      && (CanonicalOf(Get(n, "symbol")).None?
         || (DirectionOf(Get(n, "direction")).Some? && TooLarge(nums, Get(n, "price"))))
    case GetTrades =>
      && Identified(n, ["client_id", "strategy_id"]).Ok?
      && (Infinite(n, "after_id") || (IntField(nums, n, "after_id", JInt(0)).Ok? && Infinite(n, "limit")))
    case GetAccount => ("force_refresh" in n ==> n["force_refresh"].JBool?) && Infinite(n, "max_age_ms")
    case GetPositions => ("force_refresh" in n ==> n["force_refresh"].JBool?) && Infinite(n, "max_age_ms")
    case GetOrders =>
      && (Truthy(Get(n, "local_only")) ==> Identified(n, ["client_id", "strategy_id"]).Ok?)
      && ("force_refresh" in n ==> n["force_refresh"].JBool?)
      && Infinite(n, "max_age_ms")
    case _ => false
  }

  lemma SubscriptionError(n: Fields)
    requires Subscription(n).Err?
    ensures Subscription(n).error == Invalid
  {
    if Identified(n, ["client_id", "strategy_id"]).Err? {
      IdentityError(n, ["client_id", "strategy_id"]);
    }
  }

  lemma BodyUnexpected(nums: Numbers, a: Action, n: Fields)
    ensures Normalized(nums, a, n) == Err(Unexpected) <==> Escapes(nums, a, n)
  {
    match a {
      case SubscribeMarketData => if Subscription(n).Err? { SubscriptionError(n); }
      case UnsubscribeMarketData => if Subscription(n).Err? { SubscriptionError(n); }
      case GetAccount => QueryUnexpected(nums, a, n);
      case GetPositions => QueryUnexpected(nums, a, n);
      case GetOrders => QueryUnexpected(nums, a, n);
      case GetTrades => PagingUnexpected(nums, n);
      case GetTradeCursor =>
        if Identified(n, ["client_id", "strategy_id"]).Err? { IdentityError(n, ["client_id", "strategy_id"]); }
      case PlaceOrder => PlacementUnexpected(nums, n);
      case CancelOrder =>
        if Identified(n, ["client_id", "strategy_id", "client_order_id"]).Err? {
          IdentityError(n, ["client_id", "strategy_id", "client_order_id"]);
        }
      case Ping =>
      case Status =>
    }
  }

  /** An accepted age in milliseconds that a double cannot hold, where the session's cache is read. */
  predicate AgeOverflows(nums: Numbers, a: Action, n: Fields) {
    && ReadsCache(a, n)
    && ("force_refresh" in n ==> n["force_refresh"] == JBool(false))
    && "max_age_ms" in n && !n["max_age_ms"].JBool?
    && IntOf(nums, n["max_age_ms"]).Ok? && IntOf(nums, n["max_age_ms"]).value >= 0
    && TooLarge(nums, JInt(IntOf(nums, n["max_age_ms"]).value))
  }

  lemma AgeUnexpected(nums: Numbers, a: Action, n: Fields)
    requires a.GetAccount? || a.GetPositions? || a.GetOrders?
    ensures Query(nums, a, n).Ok? ==> (ReadsCache(a, Query(nums, a, n).value) <==> ReadsCache(a, n))
    ensures Query(nums, a, n).Ok? && ReadsCache(a, n) && MaxAge(nums, Query(nums, a, n).value) == Err(Unexpected) <==>
              AgeOverflows(nums, a, n)
    ensures Query(nums, a, n).Ok? && MaxAge(nums, Query(nums, a, n).value).Err? ==>
              MaxAge(nums, Query(nums, a, n).value).error == Unexpected
  {
    if Query(nums, a, n).Ok? {
      if a.GetOrders? && Truthy(Get(n, "local_only")) {
        IdentityOther(n, ["client_id", "strategy_id"], "local_only");
      }
      QueryResult(nums, a, n);
    }
  }

  /**
   * A malformed request is answered as an internal error that may be retried,
   * and not as an invalid one, exactly for an unparsable order symbol, an order
   * price or a cache age that is an integer beyond the range of a double, or an
   * infinite number in an integer field - each where the other checks let the
   * request come that far.
   */
  lemma UnexpectedExactly(nums: Numbers, request: Json)
    ensures Prepare(nums, request).Err? && Refusal(Prepare(nums, request).error) == ("internal_error", true) <==>
              && request.JObject? && ParseAction(request.fields).Ok?
              && var a := ParseAction(request.fields).value;
                 var n := request.fields["action" := JString(NameOf(a))];
                 Escapes(nums, a, n) || AgeOverflows(nums, a, n)
  {
    if request.JObject? && ParseAction(request.fields).Ok? {
      var a := ParseAction(request.fields).value;
      PrepareUnexpected(nums, request, a, request.fields["action" := JString(NameOf(a))]);
    } else if request.JObject? {
      ParseErrors(request);
    }
  }

  lemma PrepareUnexpected(nums: Numbers, request: Json, a: Action, n: Fields)
    requires request.JObject? && ParseAction(request.fields) == Ok(a)
             && n == request.fields["action" := JString(NameOf(a))]
    ensures Prepare(nums, request) == Err(Unexpected) <==> Escapes(nums, a, n) || AgeOverflows(nums, a, n)
  {
    BodyUnexpected(nums, a, n);
    if a.GetAccount? || a.GetPositions? || a.GetOrders? {
      AgeUnexpected(nums, a, n);
      QueryPrepared(nums, request, a, n);
    } else {
      OtherPrepared(nums, request, a, n);
    }
  }

  lemma ParseErrors(request: Json)
    requires request.JObject? && ParseAction(request.fields).Err?
    ensures ParseAction(request.fields).error != Unexpected
  {
  }

  lemma QueryPrepared(nums: Numbers, request: Json, a: Action, n: Fields)
    requires request.JObject? && ParseAction(request.fields) == Ok(a)
             && n == request.fields["action" := JString(NameOf(a))]
    requires a.GetAccount? || a.GetPositions? || a.GetOrders?
    ensures Prepare(nums, request) == Err(Unexpected) <==>
              Query(nums, a, n) == Err(Unexpected)
              || (Query(nums, a, n).Ok? && ReadsCache(a, Query(nums, a, n).value)
                 && MaxAge(nums, Query(nums, a, n).value) == Err(Unexpected))
  {
  }

  lemma OtherPrepared(nums: Numbers, request: Json, a: Action, n: Fields)
    requires request.JObject? && ParseAction(request.fields) == Ok(a)
             && n == request.fields["action" := JString(NameOf(a))]
    requires !a.GetAccount? && !a.GetPositions? && !a.GetOrders?
    ensures Prepare(nums, request) == Err(Unexpected) <==> Normalized(nums, a, n) == Err(Unexpected)
  {
  }
}
