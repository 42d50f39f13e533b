/** What an accepted request says, field by field, in terms of the request that came in. */
module RequestMeaning {
  import opened Prelude
  import opened Text
  import Symbols
  import opened Requests
  import opened RequestNormalForm

  // ---- What a single value says ----

  /** The price as the runtime reads it: an integer, a number or a text. */
  predicate ReadsPrice(nums: Numbers, v: Json, price: real) {
    match v
    case JInt(i) => nums.floatOfInt(i) == Some(Finite(price))
    case JFloat(f) => f == Finite(price)
    case JString(s) => s != "" && nums.floatOf(s) == Some(Finite(price))
    case _ => false
  }

  /** A whole number, given as one, as a number without a fraction, or as the text of either. */
  predicate ReadsVolume(nums: Numbers, v: Json, volume: int) {
    match v
    case JInt(i) => i == volume
    case JFloat(f) => f == Finite(volume as real)
    case JString(s) => s != "" && nums.decimalOf(s) == Some(Finite(volume as real))
    case _ => false
  }

  /** An integer field: a fraction is cut off toward zero. */
  predicate ReadsInt(nums: Numbers, v: Json, i: int) {
    match v
    case JInt(j) => j == i
    case JFloat(Finite(r)) => if r >= 0.0 then i as real <= r < i as real + 1.0 else i as real - 1.0 < r <= i as real
    case JString(s) => nums.intOf(s) == Some(i)
    case _ => false
  }

  /** The text spells the word, each letter small or capital. */
  predicate Spells(text: string, small: string, capital: string) {
    && |text| == |small| == |capital|
    && forall i :: 0 <= i < |text| ==> text[i] == small[i] || text[i] == capital[i]
  }

  predicate ReadsSide(v: Json, side: string) {
    && v.JString?
    && ((side == "BUY" && Spells(v.text, "buy", "BUY")) || (side == "SELL" && Spells(v.text, "sell", "SELL")))
  }

  predicate ReadsSymbol(v: Json, name: string) {
    && v.JString? && Symbols.Parse(v.text).Some?
    && name == Symbols.Canonical(Symbols.Parse(v.text).value)
  }

  predicate ReadsId(v: Json, id: string) {
    v.JString? && id != "" && id == Strip(v.text)
  }

  /** Null, false, zero and the empty text, list and object. */
  predicate Falsy(v: Json) {
    v == JNull || v == JBool(false) || v == JInt(0) || v == JFloat(Finite(0.0)) || v == JString("")
    || v == JList([]) || v == JObject(map[])
  }

  // ---- What a request says ----

  predicate Called(a: Action, word: string) {
    || (a.Ping? && word == "ping")
    || (a.Status? && word == "status")
    || (a.SubscribeMarketData? && word == "subscribe_market_data")
    || (a.UnsubscribeMarketData? && word == "unsubscribe_market_data")
    || (a.GetAccount? && word == "get_account")
    || (a.GetPositions? && word == "get_positions")
    || (a.GetOrders? && word == "get_orders")
    || (a.GetTrades? && word == "get_trades")
    || (a.GetTradeCursor? && word == "get_trade_cursor")
    || (a.PlaceOrder? && word == "place_order")
    || (a.CancelOrder? && word == "cancel_order")
  }

  /** The request names this action, blanks and capitals aside. */
  predicate Names(q: Fields, a: Action) {
    "action" in q && q["action"].JString? && Called(a, Lower(Strip(q["action"].text)))
  }

  /** Outside the touched fields nothing is added, changed or removed. */
  ghost predicate SameExcept(q: Fields, n: Fields, touched: set<string>) {
    forall f :: f !in touched ==> SameAt(n, q, f)
  }

  predicate IdsRead(q: Fields, n: Fields, names: seq<string>) {
    forall f :: f in names ==> f in n && n[f].JString? && ReadsId(Get(q, f), n[f].text)
  }

  ghost predicate PlacedAs(nums: Numbers, q: Fields, n: Fields) {
    && IdsRead(q, n, ["client_id", "strategy_id", "client_order_id"])
    && "symbol" in n && n["symbol"].JString? && ReadsSymbol(Get(q, "symbol"), n["symbol"].text)
    && "direction" in n && n["direction"].JString? && ReadsSide(Get(q, "direction"), n["direction"].text)
    && "price" in n && n["price"].JFloat? && n["price"].float.Finite? && n["price"].float.value > 0.0
    && ReadsPrice(nums, Get(q, "price"), n["price"].float.value)
    && "volume" in n && n["volume"].JInt? && n["volume"].number > 0
    && ReadsVolume(nums, Get(q, "volume"), n["volume"].number)
    && "offset" !in n
  }

  /** The integer a field holds in the result; a missing field has a default. */
  predicate IntRead(nums: Numbers, q: Fields, n: Fields, f: string, default: int) {
    f in n && n[f].JInt? && if f in q then ReadsInt(nums, q[f], n[f].number) else n[f].number == default
  }

  predicate PagedAs(nums: Numbers, q: Fields, n: Fields) {
    && IdsRead(q, n, ["client_id", "strategy_id"])
    && IntRead(nums, q, n, "after_id", 0) && n["after_id"].number >= 0
    && IntRead(nums, q, n, "limit", 500) && 1 <= n["limit"].number <= 1000
  }

  predicate OwnOrders(a: Action, q: Fields) {
    a.GetOrders? && !Falsy(Get(q, "local_only"))
  }

  predicate QueriedAs(nums: Numbers, a: Action, q: Fields, n: Fields) {
    && (if OwnOrders(a, q) then IdsRead(q, n, ["client_id", "strategy_id"])
        else SameAt(n, q, "client_id") && SameAt(n, q, "strategy_id"))
    && ("force_refresh" in q ==> q["force_refresh"].JBool?)
    && (if "max_age_ms" in q then IntRead(nums, q, n, "max_age_ms", 0) && n["max_age_ms"].number >= 0
        else "max_age_ms" !in n)
  }

  ghost predicate SubscribedAs(q: Fields, n: Fields) {
    && IdsRead(q, n, ["client_id", "strategy_id"])
    && "symbols" in n && Get(q, "symbols") != JString("")
    && NormalSymbols(Get(q, "symbols")).Ok? && NormalSymbols(Get(q, "symbols")).value != []
    && n["symbols"] == JList(Texts(NormalSymbols(Get(q, "symbols")).value))
  }

  ghost predicate Says(nums: Numbers, a: Action, q: Fields, n: Fields) {
    match a
    case Ping => true
    case Status => true
    case SubscribeMarketData => SubscribedAs(q, n)
    case UnsubscribeMarketData => SubscribedAs(q, n)
    case GetAccount => QueriedAs(nums, a, q, n)
    case GetPositions => QueriedAs(nums, a, q, n)
    case GetOrders => QueriedAs(nums, a, q, n)
    case GetTrades => PagedAs(nums, q, n)
    case GetTradeCursor => IdsRead(q, n, ["client_id", "strategy_id"])
    case PlaceOrder => PlacedAs(nums, q, n)
    case CancelOrder => IdsRead(q, n, ["client_id", "strategy_id", "client_order_id"])
  }

  /** The fields an action rewrites. */
  function Rewritten(a: Action): set<string> {
    match a
    case Ping => {}
    case Status => {}
    case SubscribeMarketData => {"client_id", "strategy_id", "symbols"}
    case UnsubscribeMarketData => {"client_id", "strategy_id", "symbols"}
    case GetAccount => {"client_id", "strategy_id", "max_age_ms"}
    case GetPositions => {"client_id", "strategy_id", "max_age_ms"}
    case GetOrders => {"client_id", "strategy_id", "max_age_ms"}
    case GetTrades => {"client_id", "strategy_id", "after_id", "limit"}
    case GetTradeCursor => {"client_id", "strategy_id"}
    case PlaceOrder =>
      {"client_id", "strategy_id", "client_order_id", "symbol", "direction", "price", "volume", "offset"}
    case CancelOrder => {"client_id", "strategy_id", "client_order_id"}
  }

  /** The whole meaning of accepting `q` as `n`. */
  ghost predicate AcceptedAs(nums: Numbers, a: Action, q: Fields, n: Fields) {
    && Names(q, a)
    && "action" in n && n["action"].JString? && Called(a, n["action"].text)
    && Says(nums, a, q, n)
    && SameExcept(q, n, Rewritten(a) + {"action"})
  }

  // ---- The parsers read what they should ----

  lemma PriceRead(nums: Numbers, v: Json, p: real)
    requires !v.JBool? && v != JString("")
    ensures FloatOf(nums, v) == Ok(Finite(p)) <==> ReadsPrice(nums, v, p)
  {
  }

  lemma VolumeRead(nums: Numbers, v: Json, q: int)
    requires v != JString("")
    ensures VolumeOf(nums, v) == Some(q) <==> ReadsVolume(nums, v, q)
  {
  }

  lemma IntegerRead(nums: Numbers, v: Json, i: int)
    ensures IntOf(nums, v) == Ok(i) <==> ReadsInt(nums, v, i)
  {
  }

  lemma LetterSpelt(c: char, small: char, capital: char)
    requires 'a' <= small <= 'z' && capital == small - ' '
    ensures UpperChar(c) == capital <==> c == small || c == capital
  {
  }

  lemma WordSpelt(text: string, small: string, capital: string)
    requires |small| == |capital|
    requires forall i :: 0 <= i < |small| ==> 'a' <= small[i] <= 'z' && capital[i] == small[i] - ' '
    ensures Upper(text) == capital <==> Spells(text, small, capital)
  {
    if |text| == |capital| {
      forall i | 0 <= i < |text|
        ensures Upper(text)[i] == capital[i] <==> text[i] == small[i] || text[i] == capital[i]
      {
        LetterSpelt(text[i], small[i], capital[i]);
      }
    }
  }

  lemma SideRead(v: Json, side: string)
    ensures DirectionOf(v) == Some(side) <==> ReadsSide(v, side)
  {
    if v.JString? {
      WordSpelt(v.text, "buy", "BUY");
      WordSpelt(v.text, "sell", "SELL");
    }
  }

  lemma TruthRead(v: Json)
    ensures Truthy(v) <==> !Falsy(v)
  {
  }

  lemma NameRead(a: Action, word: string)
    ensures ActionOf(word) == Some(a) <==> Called(a, word)
    ensures NameOf(a) == word <==> Called(a, word)
  {
  }

  lemma ActionRead(q: Fields, a: Action)
    ensures ParseAction(q) == Ok(a) <==> Names(q, a)
  {
    if "action" in q && q["action"].JString? {
      NameRead(a, Lower(Strip(q["action"].text)));
    }
  }

  /** Each capital letter has the small one of the same place in the alphabet; nothing else changes. */
  lemma LowerLetters(s: string, i: nat)
    requires i < |s|
    ensures var small, capital := "abcdefghijklmnopqrstuvwxyz", "ABCDEFGHIJKLMNOPQRSTUVWXYZ";
            && (forall j :: 0 <= j < 26 && s[i] == capital[j] ==> Lower(s)[i] == small[j])
            && (s[i] !in capital ==> Lower(s)[i] == s[i])
  {
    var small, capital := "abcdefghijklmnopqrstuvwxyz", "ABCDEFGHIJKLMNOPQRSTUVWXYZ";
    AlphabetsMatch();
    if 'A' <= s[i] <= 'Z' { assert capital[(s[i] - 'A') as int] == s[i]; }
  }

  /** A comma-separated text lists what an array of its pieces lists. */
  lemma CommaList(names: seq<string>)
    requires names != [] && forall x :: x in names ==> ',' !in x
    ensures NormalSymbols(JString(Join(names, ','))) == NormalSymbols(JList(Texts(names)))
  {
    SplitJoined(names, ',');
    assert ItemsOf(JString(Join(names, ','))) == Some(Texts(names));
    SameItems(JString(Join(names, ',')), JList(Texts(names)));
  }

  lemma SameItems(v: Json, w: Json)
    requires ItemsOf(v) == ItemsOf(w)
    ensures NormalSymbols(v) == NormalSymbols(w)
  {
  }

  // ---- Identities ----

  lemma {:induction false} StrippedValue(n: Fields, names: seq<string>, f: string)
    requires Stripped(n, names).Ok? && f in names
    ensures var m := Stripped(n, names).value; f in m && m[f].JString? && ReadsId(Get(n, f), m[f].text)
  {
    var k := |names| - 1;
    assert names == names[..k] + [names[k]];
    StrippedField(n, names[..k], names[k]);
    if f in names[..k] {
      StrippedValue(n, names[..k], f);
      StripTwice(Get(n, f).text);
    }
  }

  lemma {:induction false} StrippedAccepts(n: Fields, names: seq<string>)
    requires forall f :: f in names ==> Get(n, f).JString? && Strip(Get(n, f).text) != ""
    ensures Stripped(n, names).Ok?
  {
    if names != [] {
      var k := |names| - 1;
      assert names == names[..k] + [names[k]];
      StrippedAccepts(n, names[..k]);
      StrippedField(n, names[..k], names[k]);
    }
  }

  lemma IdentityRead(q: Fields, names: seq<string>)
    ensures Identified(q, names).Ok? <==> forall f :: f in names ==> Get(q, f).JString? && Strip(Get(q, f).text) != ""
    ensures Identified(q, names).Ok? ==> IdsRead(q, Identified(q, names).value, names)
  {
    if Identified(q, names).Ok? {
      forall f | f in names { StrippedValue(q, names, f); }
    }
    if forall f :: f in names ==> Get(q, f).JString? && Strip(Get(q, f).text) != "" {
      StrippedAccepts(q, names);
      forall f | f in names ensures !Missing(Get(q, f)) { assert Strip("") == ""; }
    }
  }

  // ---- Each action ----

  lemma SubscriptionRead(q: Fields)
    ensures Subscription(q).Ok? ==> SubscribedAs(q, Subscription(q).value)
    ensures (exists n :: SubscribedAs(q, n)) ==> Subscription(q).Ok?
  {
    var ids := ["client_id", "strategy_id"];
    IdentityRead(q, ids);
    if Subscription(q).Ok? {
      IdentityOther(q, ids, "symbols");
    }
    if n :| SubscribedAs(q, n) {
      IdsAccept(q, n, ids);
      IdentityOther(q, ids, "symbols");
    }
  }

  /** Clean texts to read are all it takes. */
  lemma IdsAccept(q: Fields, n: Fields, names: seq<string>)
    requires IdsRead(q, n, names)
    ensures Identified(q, names).Ok?
  {
    IdentityRead(q, names);
    forall f | f in names ensures Get(q, f).JString? && Strip(Get(q, f).text) != "" {
      assert ReadsId(Get(q, f), n[f].text);
    }
  }

  lemma AmountsRead(nums: Numbers, m: Fields)
    requires Get(m, "price") != JString("") && Get(m, "volume") != JString("")
    ensures Amounts(nums, m).Ok? ==>
              var r := Amounts(nums, m).value;
              && "direction" in r && r["direction"].JString? && ReadsSide(Get(m, "direction"), r["direction"].text)
              && "price" in r && r["price"].JFloat? && r["price"].float.Finite?
              && ReadsPrice(nums, Get(m, "price"), r["price"].float.value)
              && "volume" in r && r["volume"].JInt? && ReadsVolume(nums, Get(m, "volume"), r["volume"].number)
  {
    if Amounts(nums, m).Ok? {
      var r := Amounts(nums, m).value;
      SideRead(Get(m, "direction"), r["direction"].text);
      PriceRead(nums, Get(m, "price"), r["price"].float.value);
      VolumeRead(nums, Get(m, "volume"), r["volume"].number);
    }
  }

  lemma AmountsAccept(nums: Numbers, m: Fields, side: string, price: real, volume: int)
    requires ReadsSide(Get(m, "direction"), side)
    requires ReadsPrice(nums, Get(m, "price"), price) && price > 0.0
    requires ReadsVolume(nums, Get(m, "volume"), volume) && volume > 0
    ensures Amounts(nums, m).Ok?
  {
    SideRead(Get(m, "direction"), side);
    PriceRead(nums, Get(m, "price"), price);
    VolumeRead(nums, Get(m, "volume"), volume);
  }

  lemma PlacementRead(nums: Numbers, q: Fields)
    requires Placement(nums, q).Ok?
    ensures PlacedAs(nums, q, Placement(nums, q).value)
  {
    var ids := ["client_id", "strategy_id", "client_order_id"];
    var id, m, r := PlacementParts(nums, q);
    IdentityRead(q, ids);
    IdentityOther(q, ids, "symbol");
    IdentityOther(q, ids, "direction");
    IdentityOther(q, ids, "price");
    IdentityOther(q, ids, "volume");
    PlacementSymbol(nums, id, m, r);
    AmountsOther(nums, m, "symbol");
    PlacedBody(nums, id);
    AmountsResult(nums, m);
    AmountsRead(nums, m);
    forall f | f in ids ensures SameAt(r, id, f) {
      PlacementOther(nums, id, m, CanonicalOf(Get(id, "symbol")).value, f);
    }
  }

  lemma PlacedBody(nums: Numbers, id: Fields)
    requires Present(id, ["symbol", "direction", "price", "volume"])
    ensures Get(id, "price") != JString("") && Get(id, "volume") != JString("")
  {
    var body := ["symbol", "direction", "price", "volume"];
    assert "price" in body && "volume" in body;
  }

  lemma PlacementAccept(nums: Numbers, q: Fields, n: Fields)
    requires PlacedAs(nums, q, n)
    ensures Placement(nums, q).Ok?
  {
    var ids := ["client_id", "strategy_id", "client_order_id"];
    IdsAccept(q, n, ids);
    IdentityOther(q, ids, "symbol");
    IdentityOther(q, ids, "direction");
    IdentityOther(q, ids, "price");
    IdentityOther(q, ids, "volume");
    var id := Identified(q, ids).value;
    assert Get(id, "direction") != JString("") by { SideRead(Get(q, "direction"), n["direction"].text); }
    assert Get(id, "symbol") != JString("") by { assert Symbols.Parse("").None?; }
    var m := (id - {"offset"})["symbol" := JString(CanonicalOf(Get(id, "symbol")).value)];
    AmountsAccept(nums, m, n["direction"].text, n["price"].float.value, n["volume"].number);
  }

  lemma IntFieldRead(nums: Numbers, q: Fields, f: string, default: int)
    requires IntField(nums, q, f, JInt(default)).Ok?
    ensures IntRead(nums, q, IntField(nums, q, f, JInt(default)).value, f, default)
  {
    if f in q { IntegerRead(nums, q[f], IntOf(nums, q[f]).value); }
  }

  lemma IntFieldAccept(nums: Numbers, q: Fields, n: Fields, f: string, default: int)
    requires IntRead(nums, q, n, f, default)
    ensures IntField(nums, q, f, JInt(default)) == Ok(q[f := n[f]])
  {
    if f in q { IntegerRead(nums, q[f], n[f].number); }
  }

  lemma PagingRead(nums: Numbers, q: Fields)
    requires Paging(nums, q).Ok?
    ensures PagedAs(nums, q, Paging(nums, q).value)
  {
    var ids := ["client_id", "strategy_id"];
    IdentityRead(q, ids);
    IdentityOther(q, ids, "after_id");
    IdentityOther(q, ids, "limit");
    var id := Identified(q, ids).value;
    IntFieldRead(nums, id, "after_id", 0);
    IntFieldRead(nums, IntField(nums, id, "after_id", JInt(0)).value, "limit", 500);
  }

  lemma PagingAccept(nums: Numbers, q: Fields, n: Fields)
    requires PagedAs(nums, q, n)
    ensures Paging(nums, q).Ok?
  {
    var ids := ["client_id", "strategy_id"];
    IdsAccept(q, n, ids);
    IdentityOther(q, ids, "after_id");
    IdentityOther(q, ids, "limit");
    var id := Identified(q, ids).value;
    IntFieldAccept(nums, id, n, "after_id", 0);
    IntFieldAccept(nums, id["after_id" := n["after_id"]], n, "limit", 500);
  }

  lemma QueryIdentity(a: Action, q: Fields)
    ensures var ids := ["client_id", "strategy_id"];
            var id := if a.GetOrders? && Truthy(Get(q, "local_only")) then Identified(q, ids) else Ok(q);
            && (id.Ok? ==> SameAt(id.value, q, "force_refresh") && SameAt(id.value, q, "max_age_ms"))
            && (id.Ok? && OwnOrders(a, q) ==> IdsRead(q, id.value, ids))
            && (OwnOrders(a, q) <==> a.GetOrders? && Truthy(Get(q, "local_only")))
  {
    var ids := ["client_id", "strategy_id"];
    TruthRead(Get(q, "local_only"));
    if OwnOrders(a, q) && Identified(q, ids).Ok? {
      IdentityRead(q, ids);
      IdentityOther(q, ids, "force_refresh");
      IdentityOther(q, ids, "max_age_ms");
    }
  }

  lemma QueryRead(nums: Numbers, a: Action, q: Fields)
    requires Query(nums, a, q).Ok?
    ensures QueriedAs(nums, a, q, Query(nums, a, q).value)
  {
    QueryIdentity(a, q);
    var n := Query(nums, a, q).value;
    if "max_age_ms" in q { IntegerRead(nums, q["max_age_ms"], n["max_age_ms"].number); }
  }

  lemma QueryAccept(nums: Numbers, a: Action, q: Fields, n: Fields)
    requires QueriedAs(nums, a, q, n)
    ensures Query(nums, a, q).Ok?
  {
    QueryIdentity(a, q);
    if OwnOrders(a, q) { IdsAccept(q, n, ["client_id", "strategy_id"]); }
    if "max_age_ms" in q { IntegerRead(nums, q["max_age_ms"], n["max_age_ms"].number); }
  }

  lemma BodyRead(nums: Numbers, a: Action, q: Fields)
    requires Normalized(nums, a, q).Ok?
    ensures Says(nums, a, q, Normalized(nums, a, q).value)
  {
    match a {
      case SubscribeMarketData => SubscriptionRead(q);
      case UnsubscribeMarketData => SubscriptionRead(q);
      case GetAccount => QueryRead(nums, a, q);
      case GetPositions => QueryRead(nums, a, q);
      case GetOrders => QueryRead(nums, a, q);
      case GetTrades => PagingRead(nums, q);
      case GetTradeCursor => IdentityRead(q, ["client_id", "strategy_id"]);
      case PlaceOrder => PlacementRead(nums, q);
      case CancelOrder => IdentityRead(q, ["client_id", "strategy_id", "client_order_id"]);
      case Ping =>
      case Status =>
    }
  }

  lemma BodyAccept(nums: Numbers, a: Action, q: Fields, n: Fields)
    requires Says(nums, a, q, n)
    ensures Normalized(nums, a, q).Ok?
  {
    match a {
      case SubscribeMarketData => SubscriptionRead(q);
      case UnsubscribeMarketData => SubscriptionRead(q);
      case GetAccount => QueryAccept(nums, a, q, n);
      case GetPositions => QueryAccept(nums, a, q, n);
      case GetOrders => QueryAccept(nums, a, q, n);
      case GetTrades => PagingAccept(nums, q, n);
      case GetTradeCursor => IdsAccept(q, n, ["client_id", "strategy_id"]);
      case PlaceOrder => PlacementAccept(nums, q, n);
      case CancelOrder => IdsAccept(q, n, ["client_id", "strategy_id", "client_order_id"]);
      case Ping =>
      case Status =>
    }
  }

  // ---- The result is determined ----

  lemma IdsUnique(q: Fields, n: Fields, m: Fields, names: seq<string>, f: string)
    requires IdsRead(q, n, names) && IdsRead(q, m, names) && f in names
    ensures SameAt(n, m, f)
  {
    assert ReadsId(Get(q, f), n[f].text) && ReadsId(Get(q, f), m[f].text);
  }

  lemma IntUnique(nums: Numbers, q: Fields, n: Fields, m: Fields, f: string, default: int)
    requires IntRead(nums, q, n, f, default) && IntRead(nums, q, m, f, default)
    ensures SameAt(n, m, f)
  {
    if f in q {
      IntegerRead(nums, q[f], n[f].number);
      IntegerRead(nums, q[f], m[f].number);
    }
  }

  lemma PlacedUnique(nums: Numbers, q: Fields, n: Fields, m: Fields, f: string)
    requires PlacedAs(nums, q, n) && PlacedAs(nums, q, m) && f in Rewritten(PlaceOrder)
    ensures SameAt(n, m, f)
  {
    var ids := ["client_id", "strategy_id", "client_order_id"];
    if f in ids {
      IdsUnique(q, n, m, ids, f);
    } else if f == "direction" {
      SideRead(Get(q, f), n[f].text);
      SideRead(Get(q, f), m[f].text);
    } else if f == "volume" {
      VolumeRead(nums, Get(q, f), n[f].number);
      VolumeRead(nums, Get(q, f), m[f].number);
    }
  }

  lemma SaysUnique(nums: Numbers, a: Action, q: Fields, n: Fields, m: Fields, f: string)
    requires Says(nums, a, q, n) && Says(nums, a, q, m) && f in Rewritten(a)
    ensures SameAt(n, m, f)
  {
    var ids := ["client_id", "strategy_id"];
    match a {
      case SubscribeMarketData => if f in ids { IdsUnique(q, n, m, ids, f); }
      case UnsubscribeMarketData => if f in ids { IdsUnique(q, n, m, ids, f); }
      case GetAccount => QueriedUnique(nums, a, q, n, m, f);
      case GetPositions => QueriedUnique(nums, a, q, n, m, f);
      case GetOrders => QueriedUnique(nums, a, q, n, m, f);
      case GetTrades =>
        if f in ids { IdsUnique(q, n, m, ids, f); }
        else if f == "limit" { IntUnique(nums, q, n, m, f, 500); }
        else { IntUnique(nums, q, n, m, f, 0); }
      case GetTradeCursor => IdsUnique(q, n, m, ids, f);
      case PlaceOrder => PlacedUnique(nums, q, n, m, f);
      case CancelOrder => IdsUnique(q, n, m, ["client_id", "strategy_id", "client_order_id"], f);
      case Ping =>
      case Status =>
    }
  }

  lemma QueriedUnique(nums: Numbers, a: Action, q: Fields, n: Fields, m: Fields, f: string)
    requires QueriedAs(nums, a, q, n) && QueriedAs(nums, a, q, m) && f in Rewritten(GetOrders)
    ensures SameAt(n, m, f)
  {
    if f != "max_age_ms" {
      if OwnOrders(a, q) { IdsUnique(q, n, m, ["client_id", "strategy_id"], f); }
    } else if f in q {
      IntUnique(nums, q, n, m, f, 0);
    }
  }

  lemma AcceptedUnique(nums: Numbers, a: Action, q: Fields, n: Fields, m: Fields)
    requires AcceptedAs(nums, a, q, n) && AcceptedAs(nums, a, q, m)
    ensures n == m
  {
    forall f ensures SameAt(n, m, f) {
      if f in Rewritten(a) { SaysUnique(nums, a, q, n, m, f); }
      else if f == "action" { SameWord(a, n[f].text, m[f].text); }
      else { assert SameAt(n, q, f) && SameAt(m, q, f); }
    }
    SameEverywhere(n, m);
  }

  lemma SameWord(a: Action, v: string, w: string)
    requires Called(a, v) && Called(a, w)
    ensures v == w
  {
    NameRead(a, v);
    NameRead(a, w);
  }

  lemma SameEverywhere(n: Fields, m: Fields)
    requires forall f :: SameAt(n, m, f)
    ensures n == m
  {
    forall f ensures f in n <==> f in m { assert SameAt(n, m, f); }
    forall f | f in n ensures n[f] == m[f] { assert SameAt(n, m, f); }
  }

  // ---- Theorems ----

  ghost predicate SameButAction(q: Fields, r: Fields) {
    forall f :: f != "action" ==> SameAt(r, q, f)
  }

  lemma IdsSame(q: Fields, r: Fields, n: Fields, names: seq<string>)
    requires SameButAction(q, r) && "action" !in names
    ensures IdsRead(q, n, names) <==> IdsRead(r, n, names)
  {
    forall f | f in names ensures Get(r, f) == Get(q, f) { assert SameAt(r, q, f); }
  }

  lemma PlacedSame(nums: Numbers, q: Fields, r: Fields, n: Fields)
    requires SameButAction(q, r)
    ensures PlacedAs(nums, q, n) <==> PlacedAs(nums, r, n)
  {
    IdsSame(q, r, n, ["client_id", "strategy_id", "client_order_id"]);
    assert SameAt(r, q, "symbol") && SameAt(r, q, "direction") && SameAt(r, q, "price") && SameAt(r, q, "volume");
  }

  lemma PagedSame(nums: Numbers, q: Fields, r: Fields, n: Fields)
    requires SameButAction(q, r)
    ensures PagedAs(nums, q, n) <==> PagedAs(nums, r, n)
  {
    IdsSame(q, r, n, ["client_id", "strategy_id"]);
    assert SameAt(r, q, "after_id") && SameAt(r, q, "limit");
  }

  lemma SubscribedSame(q: Fields, r: Fields, n: Fields)
    requires SameButAction(q, r)
    ensures SubscribedAs(q, n) <==> SubscribedAs(r, n)
  {
    IdsSame(q, r, n, ["client_id", "strategy_id"]);
    assert SameAt(r, q, "symbols");
  }

  lemma QueriedSame(nums: Numbers, a: Action, q: Fields, r: Fields, n: Fields)
    requires SameButAction(q, r)
    ensures QueriedAs(nums, a, q, n) <==> QueriedAs(nums, a, r, n)
  {
    IdsSame(q, r, n, ["client_id", "strategy_id"]);
    assert SameAt(r, q, "local_only") && SameAt(r, q, "force_refresh") && SameAt(r, q, "max_age_ms");
    SameAtBoth(q, r, n, "client_id");
    SameAtBoth(q, r, n, "strategy_id");
  }

  lemma SameAtBoth(q: Fields, r: Fields, n: Fields, f: string)
    requires SameButAction(q, r) && f != "action"
    ensures SameAt(n, q, f) <==> SameAt(n, r, f)
  {
    assert SameAt(r, q, f);
  }

  lemma SaysSame(nums: Numbers, a: Action, q: Fields, r: Fields, n: Fields)
    requires SameButAction(q, r)
    ensures Says(nums, a, q, n) <==> Says(nums, a, r, n)
  {
    match a {
      case SubscribeMarketData => SubscribedSame(q, r, n);
      case UnsubscribeMarketData => SubscribedSame(q, r, n);
      case GetAccount => QueriedSame(nums, a, q, r, n);
      case GetPositions => QueriedSame(nums, a, q, r, n);
      case GetOrders => QueriedSame(nums, a, q, r, n);
      case GetTrades => PagedSame(nums, q, r, n);
      case GetTradeCursor => IdsSame(q, r, n, ["client_id", "strategy_id"]);
      case PlaceOrder => PlacedSame(nums, q, r, n);
      case CancelOrder => IdsSame(q, r, n, ["client_id", "strategy_id", "client_order_id"]);
      case Ping =>
      case Status =>
    }
  }

  lemma SaysIgnoresAction(nums: Numbers, a: Action, q: Fields, n: Fields, action: Json)
    ensures Says(nums, a, q["action" := action], n) <==> Says(nums, a, q, n)
  {
    SaysSame(nums, a, q, q["action" := action], n);
  }

  lemma AcceptedSays(nums: Numbers, a: Action, q: Fields, n: Fields)
    requires Validated(nums, JObject(q)) == Ok((a, n))
    ensures AcceptedAs(nums, a, q, n)
  {
    var b := q["action" := JString(NameOf(a))];
    ActionRead(q, a);
    NameRead(a, NameOf(a));
    BodyRead(nums, a, b);
    SaysIgnoresAction(nums, a, q, n, JString(NameOf(a)));
    ActionKept(nums, a, b);
    forall f | f !in Rewritten(a) + {"action"} ensures SameAt(n, q, f) {
      BodyUntouched(nums, a, b, f);
    }
  }

  /**
   * A request is accepted exactly when it names an action and every field the
   * action needs can be read, and the result holds exactly what was read: ids
   * stripped, symbols canonical, the price, volume, side and integers that were
   * given, defaults where the action has them, and every other field as it came.
   */
  lemma AcceptedExactly(nums: Numbers, a: Action, q: Fields, n: Fields)
    ensures Validated(nums, JObject(q)) == Ok((a, n)) <==> AcceptedAs(nums, a, q, n)
  {
    if Validated(nums, JObject(q)) == Ok((a, n)) {
      AcceptedSays(nums, a, q, n);
    } else if AcceptedAs(nums, a, q, n) {
      ActionRead(q, a);
      var b := q["action" := JString(NameOf(a))];
      SaysIgnoresAction(nums, a, q, n, JString(NameOf(a)));
      BodyAccept(nums, a, b, n);
      var m := Normalized(nums, a, b).value;
      AcceptedSays(nums, a, q, m);
      AcceptedUnique(nums, a, q, n, m);
    }
  }

  // ---- What the handler prepares and refuses ----

  /** The cache age handed to the session: only for a cached read that is not forced and gives one. */
  predicate AgeRead(nums: Numbers, a: Action, n: Fields, age: Option<Float>) {
    if (a.GetAccount? || a.GetPositions? || (a.GetOrders? && Falsy(Get(n, "local_only"))))
       && Falsy(Get(n, "force_refresh")) && "max_age_ms" in n && n["max_age_ms"].JInt?
    then age.Some? && nums.floatOfInt(n["max_age_ms"].number) == age
    else age.None?
  }

  /** A request is prepared exactly when it is accepted and its cache age, if it counts, has a double. */
  lemma PreparedExactly(nums: Numbers, a: Action, q: Fields, n: Fields, age: Option<Float>)
    ensures Prepare(nums, JObject(q)) == Ok(Prepared(a, n, age)) <==>
              AcceptedAs(nums, a, q, n) && AgeRead(nums, a, n, age)
  {
    AcceptedExactly(nums, a, q, n);
    if Validated(nums, JObject(q)) == Ok((a, n)) {
      AcceptedIsNormal(nums, JObject(q));
      TruthRead(Get(n, "local_only"));
      TruthRead(Get(n, "force_refresh"));
    }
  }

  lemma OnlyNamed(q: Fields)
    ensures (exists a :: Names(q, a)) <==> ParseAction(q).Ok?
  {
    if ParseAction(q).Ok? { ActionRead(q, ParseAction(q).value); }
    if a :| Names(q, a) { ActionRead(q, a); }
  }

  lemma BodyNeverUnsupported(nums: Numbers, a: Action, n: Fields)
    ensures Normalized(nums, a, n) != Err(Unsupported)
  {
    match a {
      case SubscribeMarketData => if Subscription(n).Err? { SubscriptionError(n); }
      case UnsubscribeMarketData => if Subscription(n).Err? { SubscriptionError(n); }
      case GetAccount => QueryNeverUnsupported(nums, a, n);
      case GetPositions => QueryNeverUnsupported(nums, a, n);
      case GetOrders => QueryNeverUnsupported(nums, a, n);
      case GetTrades => PagingNeverUnsupported(nums, n);
      case GetTradeCursor => IdentityNeverUnsupported(n, ["client_id", "strategy_id"]);
      case PlaceOrder => PlacementNeverUnsupported(nums, n);
      case CancelOrder => IdentityNeverUnsupported(n, ["client_id", "strategy_id", "client_order_id"]);
      case Ping =>
      case Status =>
    }
  }

  lemma IdentityNeverUnsupported(n: Fields, names: seq<string>)
    ensures Identified(n, names) != Err(Unsupported)
  {
    if Identified(n, names).Err? { IdentityError(n, names); }
  }

  lemma QueryNeverUnsupported(nums: Numbers, a: Action, n: Fields)
    ensures Query(nums, a, n) != Err(Unsupported)
  {
    IdentityNeverUnsupported(n, ["client_id", "strategy_id"]);
  }

  lemma PagingNeverUnsupported(nums: Numbers, n: Fields)
    ensures Paging(nums, n) != Err(Unsupported)
  {
    IdentityNeverUnsupported(n, ["client_id", "strategy_id"]);
  }

  lemma PlacementNeverUnsupported(nums: Numbers, n: Fields)
    ensures Placement(nums, n) != Err(Unsupported)
  {
    IdentityNeverUnsupported(n, ["client_id", "strategy_id", "client_order_id"]);
  }

  lemma AgeNeverUnsupported(nums: Numbers, n: Fields)
    ensures MaxAge(nums, n) != Err(Unsupported)
  {
  }

  /**
   * The two refusals of the protocol: `unsupported_action` exactly for an action
   * that is given and names none of the known ones, `invalid_request` for every
   * other refusal the protocol foresees; neither may be retried.
   */
  lemma RefusedExactly(nums: Numbers, q: Fields)
    ensures var p := Prepare(nums, JObject(q));
            p.Err? ==>
              && Refusal(p.error) in
                   [("unsupported_action", false), ("invalid_request", false), ("internal_error", true)]
              && (Refusal(p.error) == ("unsupported_action", false) <==>
                    && "action" in q && (q["action"].JString? ==> Strip(q["action"].text) != "")
                    && !exists a :: Names(q, a))
              && (Refusal(p.error) == ("internal_error", true) <==> p.error == Unexpected)
  {
    OnlyNamed(q);
    if ParseAction(q).Ok? {
      var a := ParseAction(q).value;
      BodyNeverUnsupported(nums, a, q["action" := JString(NameOf(a))]);
      if Validated(nums, JObject(q)).Ok? { AgeNeverUnsupported(nums, Validated(nums, JObject(q)).value.1); }
    }
  }

  /** What is not an object is refused as invalid. */
  lemma NoObjectRefused(nums: Numbers, v: Json)
    requires !v.JObject?
    ensures Prepare(nums, v).Err? && Refusal(Prepare(nums, v).error) == ("invalid_request", false)
  {
  }
}
