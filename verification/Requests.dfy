/** Request validation: what is accepted, in which normal form, and how a refusal is classified. */
module Requests {
  import opened Prelude
  import opened Text
  import Symbols
  import MarketData

  datatype Float = Finite(value: real) | PosInf | NegInf | NaN

  datatype Json =
    | JNull
    | JBool(truth: bool)
    | JInt(number: int)
    | JFloat(float: Float)
    | JString(text: string)
    | JList(items: seq<Json>)
    | JObject(fields: map<string, Json>)

  type Fields = map<string, Json>

  datatype Action =
    | Ping | Status | SubscribeMarketData | UnsubscribeMarketData | GetAccount | GetPositions | GetOrders
    | GetTrades | GetTradeCursor | PlaceOrder | CancelOrder

  /** A refusal by the protocol, or an exception it does not foresee. */
  datatype Error = Invalid | Unsupported | Unexpected

  type Outcome = Result<Fields, Error>

  /** The number parsers of the runtime; `floatOfInt` fails beyond the range of a double. */
  datatype Numbers = Numbers(
    floatOf: string -> Option<Float>, intOf: string -> Option<int>, decimalOf: string -> Option<Float>,
    floatOfInt: int -> Option<Float>)

  function NameOf(a: Action): string {
    match a
    case Ping => "ping"
    case Status => "status"
    case SubscribeMarketData => "subscribe_market_data"
    case UnsubscribeMarketData => "unsubscribe_market_data"
    case GetAccount => "get_account"
    case GetPositions => "get_positions"
    case GetOrders => "get_orders"
    case GetTrades => "get_trades"
    case GetTradeCursor => "get_trade_cursor"
    case PlaceOrder => "place_order"
    case CancelOrder => "cancel_order"
  }

  function ActionOf(name: string): Option<Action> {
    if name == "ping" then Some(Ping)
    else if name == "status" then Some(Status)
    else if name == "subscribe_market_data" then Some(SubscribeMarketData)
    else if name == "unsubscribe_market_data" then Some(UnsubscribeMarketData)
    else if name == "get_account" then Some(GetAccount)
    else if name == "get_positions" then Some(GetPositions)
    else if name == "get_orders" then Some(GetOrders)
    else if name == "get_trades" then Some(GetTrades)
    else if name == "get_trade_cursor" then Some(GetTradeCursor)
    else if name == "place_order" then Some(PlaceOrder)
    else if name == "cancel_order" then Some(CancelOrder)
    else None
  }

  function LowerChar(c: char): char {
    if 'A' <= c <= 'Z' then c + ' ' else c
  }

  function Lower(s: string): (r: string)
    ensures |r| == |s|
  {
    seq(|s|, i requires 0 <= i < |s| => LowerChar(s[i]))
  }

  /** A missing field reads as null. */
  function Get(n: Fields, field: string): Json {
    if field in n then n[field] else JNull
  }

  /** A value that is not text never names an action. */
  function ParseAction(n: Fields): Result<Action, Error> {
    if "action" !in n then Err(Invalid)
    else if !n["action"].JString? then Err(Unsupported)
    else
      var name := Lower(Strip(n["action"].text));
      if name == "" then Err(Invalid)
      else if ActionOf(name).None? then Err(Unsupported)
      else Ok(ActionOf(name).value)
  }

  predicate Missing(v: Json) {
    v.JNull? || v == JString("")
  }

  predicate Present(n: Fields, fields: seq<string>) {
    forall f :: f in fields ==> !Missing(Get(n, f))
  }

  function Stripped(n: Fields, fields: seq<string>): Outcome {
    if fields == [] then Ok(n)
    else
      var before := Stripped(n, fields[..|fields| - 1]);
      var f := fields[|fields| - 1];
      if before.Err? then before
      else
        var v := Get(before.value, f);
        if v.JString? && Strip(v.text) != "" then Ok(before.value[f := JString(Strip(v.text))]) else Err(Invalid)
  }

  function Identified(n: Fields, fields: seq<string>): Outcome {
    if Present(n, fields) then Stripped(n, fields) else Err(Invalid)
  }

  function CanonicalOf(v: Json): Option<string> {
    if v.JString? && Symbols.Parse(v.text).Some? then Some(Symbols.Canonical(Symbols.Parse(v.text).value)) else None
  }

  function CanonicalItems(items: seq<Json>): Option<seq<string>> {
    if items == [] then Some([])
    else
      var before := CanonicalItems(items[..|items| - 1]);
      var last := CanonicalOf(items[|items| - 1]);
      if before.None? || last.None? then None else Some(before.value + [last.value])
  }

  function Texts(names: seq<string>): (r: seq<Json>)
    ensures |r| == |names|
  {
    seq(|names|, i requires 0 <= i < |names| => JString(names[i]))
  }

  /** The listed items, or the pieces of a comma-separated text. */
  function ItemsOf(v: Json): Option<seq<Json>> {
    if v.JString? then Some(Texts(Split(v.text, ',')))
    else if v.JList? then Some(v.items)
    else None
  }

  function NormalSymbols(v: Json): Result<seq<string>, Error> {
    if ItemsOf(v).None? then Err(Invalid)
    else
      var names := CanonicalItems(ItemsOf(v).value);
      if names.None? then Err(Invalid) else Ok(Distinct(names.value))
  }

  function Truncate(r: real): int {
    if r >= 0.0 then r.Floor else -((-r).Floor)
  }

  function IntOf(nums: Numbers, v: Json): Result<int, Error> {
    match v
    case JInt(i) => Ok(i)
    case JFloat(Finite(r)) => Ok(Truncate(r))
    case JFloat(NaN) => Err(Invalid)
    case JFloat(_) => Err(Unexpected)
    case JString(s) => if nums.intOf(s).Some? then Ok(nums.intOf(s).value) else Err(Invalid)
    case _ => Err(Invalid)
  }

  function FloatOf(nums: Numbers, v: Json): Result<Float, Error> {
    match v
    case JInt(i) => if nums.floatOfInt(i).Some? then Ok(nums.floatOfInt(i).value) else Err(Unexpected)
    case JFloat(f) => Ok(f)
    case JString(s) => if nums.floatOf(s).Some? then Ok(nums.floatOf(s).value) else Err(Invalid)
    case _ => Err(Invalid)
  }

  function Whole(f: Float): Option<int> {
    if f.Finite? && f.value == f.value.Floor as real then Some(f.value.Floor) else None
  }

  function VolumeOf(nums: Numbers, v: Json): Option<int> {
    match v
    case JInt(i) => Some(i)
    case JFloat(f) => Whole(f)
    case JString(s) => if nums.decimalOf(s).Some? then Whole(nums.decimalOf(s).value) else None
    case _ => None
  }

  function DirectionOf(v: Json): Option<string> {
    if v.JString? && (Upper(v.text) == "BUY" || Upper(v.text) == "SELL") then Some(Upper(v.text)) else None
  }

  predicate Truthy(v: Json) {
    match v
    case JNull => false
    case JBool(b) => b
    case JInt(i) => i != 0
    case JFloat(f) => f != Finite(0.0)
    case JString(s) => s != ""
    case JList(items) => items != []
    case JObject(fields) => fields != map[]
  }

  /** An integer field; `default` when it is absent. */
  function IntField(nums: Numbers, n: Fields, field: string, default: Json): Outcome {
    var v := if field in n then n[field] else default;
    if v.JBool? then Err(Invalid)
    else
      var i := IntOf(nums, v);
      if i.Err? then Err(i.error) else Ok(n[field := JInt(i.value)])
  }

  function Subscription(n: Fields): Outcome {
    var id := Identified(n, ["client_id", "strategy_id"]);
    if id.Err? then id
    else if !Present(id.value, ["symbols"]) then Err(Invalid)
    else
      var symbols := NormalSymbols(Get(id.value, "symbols"));
      if symbols.Err? || symbols.value == [] then Err(Invalid)
      else Ok(id.value["symbols" := JList(Texts(symbols.value))])
  }

  /** Price, direction and volume; the price is checked for its range last. */
  function Amounts(nums: Numbers, n: Fields): Outcome {
    var price, direction, volume := Get(n, "price"), DirectionOf(Get(n, "direction")), Get(n, "volume");
    if price.JBool? || direction.None? then Err(Invalid)
    else
      var p := FloatOf(nums, price);
      if p.Err? then Err(p.error)
      else
        var v := VolumeOf(nums, volume);
        if v.None? || !p.value.Finite? || p.value.value <= 0.0 || v.value <= 0 then Err(Invalid)
        else Ok(n["direction" := JString(direction.value)]["price" := JFloat(p.value)]["volume" := JInt(v.value)])
  }

  function Placement(nums: Numbers, n: Fields): Outcome {
    var id := Identified(n, ["client_id", "strategy_id", "client_order_id"]);
    if id.Err? then id
    else if !Present(id.value, ["symbol", "direction", "price", "volume"]) then Err(Invalid)
    else
      var symbol := CanonicalOf(Get(id.value, "symbol"));
      if symbol.None? then Err(Unexpected)
      else Amounts(nums, (id.value - {"offset"})["symbol" := JString(symbol.value)])
  }

  function Paging(nums: Numbers, n: Fields): Outcome {
    var id := Identified(n, ["client_id", "strategy_id"]);
    if id.Err? then id
    else
      var after := IntField(nums, id.value, "after_id", JInt(0));
      if after.Err? then after
      else
        var page := IntField(nums, after.value, "limit", JInt(500));
        if page.Err? then page
        else if page.value["after_id"].number < 0
                || page.value["limit"].number <= 0 || page.value["limit"].number > 1000 then Err(Invalid)
        else page
  }

  function Query(nums: Numbers, a: Action, n: Fields): Outcome {
    var id := if a.GetOrders? && Truthy(Get(n, "local_only")) then Identified(n, ["client_id", "strategy_id"])
      else Ok(n);
    if id.Err? then id
    else if "force_refresh" in id.value && !id.value["force_refresh"].JBool? then Err(Invalid)
    else if "max_age_ms" !in id.value then id
    else
      var age := IntField(nums, id.value, "max_age_ms", JNull);
      if age.Err? then age else if age.value["max_age_ms"].number < 0 then Err(Invalid) else age
  }

  function Normalized(nums: Numbers, a: Action, n: Fields): Outcome {
    match a
    case Ping => Ok(n)
    case Status => Ok(n)
    case SubscribeMarketData => Subscription(n)
    case UnsubscribeMarketData => Subscription(n)
    case GetAccount => Query(nums, a, n)
    case GetPositions => Query(nums, a, n)
    case GetOrders => Query(nums, a, n)
    case GetTrades => Paging(nums, n)
    case GetTradeCursor => Identified(n, ["client_id", "strategy_id"])
    case PlaceOrder => Placement(nums, n)
    case CancelOrder => Identified(n, ["client_id", "strategy_id", "client_order_id"])
  }

  function Validated(nums: Numbers, request: Json): Result<(Action, Fields), Error> {
    if !request.JObject? then Err(Invalid)
    else
      var a := ParseAction(request.fields);
      if a.Err? then Err(a.error)
      else
        var n := Normalized(nums, a.value, request.fields["action" := JString(NameOf(a.value))]);
        if n.Err? then Err(n.error) else Ok((a.value, n.value))
  }

  /** `_max_age_seconds`, in milliseconds: none for a forced refresh or when no age is given. */
  function MaxAge(nums: Numbers, n: Fields): Result<Option<Float>, Error> {
    if Truthy(Get(n, "force_refresh")) || Get(n, "max_age_ms").JNull? then Ok(None)
    else
      var age := FloatOf(nums, Get(n, "max_age_ms"));
      if age.Err? then Err(age.error) else Ok(Some(age.value))
  }

  /** The commands that read a cache of the session. */
  predicate ReadsCache(a: Action, n: Fields) {
    a.GetAccount? || a.GetPositions? || (a.GetOrders? && !Truthy(Get(n, "local_only")))
  }

  datatype Prepared = Prepared(action: Action, fields: Fields, maxAge: Option<Float>)

  /** What the handler does before it calls the session: validate, then convert the age. */
  function Prepare(nums: Numbers, request: Json): Result<Prepared, Error> {
    var v := Validated(nums, request);
    if v.Err? then Err(v.error)
    else if !ReadsCache(v.value.0, v.value.1) then Ok(Prepared(v.value.0, v.value.1, None))
    else
      var age := MaxAge(nums, v.value.1);
      if age.Err? then Err(age.error) else Ok(Prepared(v.value.0, v.value.1, age.value))
  }

  /** The response of the handler to a refusal: its error code and whether the client may retry. */
  function Refusal(e: Error): (string, bool) {
    match e
    case Invalid => ("invalid_request", false)
    case Unsupported => ("unsupported_action", false)
    case Unexpected => ("internal_error", true)
  }

  /** The validator's working copy of a request, updated field by field. */
  class Request {
    var fields: Fields

    constructor (fields: Fields)
      ensures this.fields == fields
    {
      this.fields := fields;
    }

    method RequireFields(names: seq<string>) returns (ok: bool)
      ensures ok <==> Present(fields, names)
    {
      for i := 0 to |names|
        invariant Present(fields, names[..i])
      {
        var v := if names[i] in fields then fields[names[i]] else JNull;
        if v.JNull? || v == JString("") {
          assert names[i] in names;
          return false;
        }
      }
      return true;
    }

    method NormalizeIdentity(names: seq<string>) returns (error: Option<Error>)
      modifies this
      ensures match Identified(old(fields), names)
              case Ok(n) => error.None? && fields == n
              case Err(e) => error == Some(e)
    {
      var present := RequireFields(names);
      if !present {
        return Some(Invalid);
      }
      for i := 0 to |names|
        invariant Stripped(old(fields), names[..i]) == Ok(fields)
      {
        assert names[..i + 1][..i] == names[..i];
        var v := Get(fields, names[i]);
        if !v.JString? || Strip(v.text) == "" {
          StrippedSticks(old(fields), names, i + 1);
          return Some(Invalid);
        }
        fields := fields[names[i] := JString(Strip(v.text))];
      }
      assert names[..|names|] == names;
      return None;
    }

    /** An integer field, read with a default and written back. */
    method NormalizeInt(nums: Numbers, name: string, default: Json) returns (error: Option<Error>)
      modifies this
      ensures match IntField(nums, old(fields), name, default)
              case Ok(n) => error.None? && fields == n
              case Err(e) => error == Some(e)
    {
      var v := if name in fields then fields[name] else default;
      if v.JBool? {
        return Some(Invalid);
      }
      var i := IntOf(nums, v);
      if i.Err? {
        return Some(i.error);
      }
      fields := fields[name := JInt(i.value)];
      return None;
    }
  }

  lemma {:induction false} StrippedSticks(n: Fields, names: seq<string>, i: nat)
    requires i <= |names| && Stripped(n, names[..i]).Err?
    ensures Stripped(n, names) == Stripped(n, names[..i])
    decreases |names|
  {
    if i == |names| {
      assert names[..i] == names;
    } else {
      assert names[..|names| - 1][..i] == names[..i];
      StrippedSticks(n, names[..|names| - 1], i);
    }
  }

  lemma {:induction false} ItemsStick(items: seq<Json>, i: nat)
    requires i <= |items| && CanonicalItems(items[..i]).None?
    ensures CanonicalItems(items).None?
    decreases |items|
  {
    if i == |items| {
      assert items[..i] == items;
    } else {
      assert items[..|items| - 1][..i] == items[..i];
      ItemsStick(items[..|items| - 1], i);
    }
  }

  /** The canonical form of every item, each kept once, at its first mention. */
  method KeepDistinct(items: seq<Json>) returns (kept: Option<seq<string>>)
    ensures match CanonicalItems(items)
            case None => kept.None?
            case Some(names) => kept == Some(Distinct(names))
  {
    var names: seq<string>, distinct: seq<string> := [], [];
    for i := 0 to |items|
      invariant CanonicalItems(items[..i]) == Some(names) && distinct == Distinct(names)
    {
      assert items[..i + 1][..i] == items[..i];
      var name := CanonicalOf(items[i]);
      if name.None? {
        ItemsStick(items, i + 1);
        return None;
      }
      DistinctAppend(names, name.value);
      names := names + [name.value];
      if name.value !in distinct {
        distinct := distinct + [name.value];
      }
    }
    assert items[..|items|] == items;
    return Some(distinct);
  }

  /** The canonical names in order of first mention; repeated ones are kept once. */
  method NormalizeSymbols(v: Json) returns (r: Result<seq<string>, Error>)
    ensures r == NormalSymbols(v)
  {
    var items := ItemsOf(v);
    if items.None? {
      return Err(Invalid);
    }
    var kept := KeepDistinct(items.value);
    return if kept.None? then Err(Invalid) else Ok(kept.value);
  }

  method ValidateRequest(nums: Numbers, request: Json) returns (r: Result<(Action, Fields), Error>)
    ensures r == Validated(nums, request)
  {
    if !request.JObject? {
      return Err(Invalid);
    }
    var action := ParseAction(request.fields);
    if action.Err? {
      return Err(action.error);
    }
    var a := action.value;
    var n := new Request(request.fields["action" := JString(NameOf(a))]);
    var error: Option<Error> := None;
    match a {
      case SubscribeMarketData => error := ValidateSubscription(n);
      case UnsubscribeMarketData => error := ValidateSubscription(n);
      case PlaceOrder => error := ValidatePlacement(nums, n);
      case CancelOrder => error := n.NormalizeIdentity(["client_id", "strategy_id", "client_order_id"]);
      case GetTrades => error := ValidatePaging(nums, n);
      case GetTradeCursor => error := n.NormalizeIdentity(["client_id", "strategy_id"]);
      case GetAccount => error := ValidateQuery(nums, a, n);
      case GetPositions => error := ValidateQuery(nums, a, n);
      case GetOrders => error := ValidateQuery(nums, a, n);
      case Ping =>
      case Status =>
    }
    return if error.None? then Ok((a, n.fields)) else Err(error.value);
  }

  method ValidateSubscription(n: Request) returns (error: Option<Error>)
    modifies n
    ensures match Subscription(old(n.fields))
            case Ok(m) => error.None? && n.fields == m
            case Err(e) => error == Some(e)
  {
    error := n.NormalizeIdentity(["client_id", "strategy_id"]);
    if error.Some? {
      return;
    }
    var present := n.RequireFields(["symbols"]);
    if !present {
      return Some(Invalid);
    }
    var symbols := NormalizeSymbols(Get(n.fields, "symbols"));
    if symbols.Err? {
      return Some(symbols.error);
    }
    n.fields := n.fields["symbols" := JList(Texts(symbols.value))];
    if |symbols.value| == 0 {
      return Some(Invalid);
    }
  }

  method ValidatePlacement(nums: Numbers, n: Request) returns (error: Option<Error>)
    modifies n
    ensures match Placement(nums, old(n.fields))
            case Ok(m) => error.None? && n.fields == m
            case Err(e) => error == Some(e)
  {
    error := n.NormalizeIdentity(["client_id", "strategy_id", "client_order_id"]);
    if error.Some? {
      return;
    }
    var present := n.RequireFields(["symbol", "direction", "price", "volume"]);
    if !present {
      return Some(Invalid);
    }
    n.fields := n.fields - {"offset"};
    var symbol := CanonicalOf(Get(n.fields, "symbol"));
    if symbol.None? {
      return Some(Unexpected);
    }
    n.fields := n.fields["symbol" := JString(symbol.value)];
    error := NormalizeAmounts(nums, n);
  }

  method NormalizeAmounts(nums: Numbers, n: Request) returns (error: Option<Error>)
    modifies n
    ensures match Amounts(nums, old(n.fields))
            case Ok(m) => error.None? && n.fields == m
            case Err(e) => error == Some(e)
  {
    var price := Get(n.fields, "price");
    if price.JBool? {
      return Some(Invalid);
    }
    var direction := DirectionOf(Get(n.fields, "direction"));
    if direction.None? {
      return Some(Invalid);
    }
    n.fields := n.fields["direction" := JString(direction.value)];
    var p := FloatOf(nums, price);
    if p.Err? {
      return Some(p.error);
    }
    n.fields := n.fields["price" := JFloat(p.value)];
    var v := VolumeOf(nums, Get(n.fields, "volume"));
    if v.None? {
      return Some(Invalid);
    }
    n.fields := n.fields["volume" := JInt(v.value)];
    if !p.value.Finite? || p.value.value <= 0.0 {
      return Some(Invalid);
    }
    return if v.value <= 0 then Some(Invalid) else None;
  }

  method ValidatePaging(nums: Numbers, n: Request) returns (error: Option<Error>)
    modifies n
    ensures match Paging(nums, old(n.fields))
            case Ok(m) => error.None? && n.fields == m
            case Err(e) => error == Some(e)
  {
    error := n.NormalizeIdentity(["client_id", "strategy_id"]);
    if error.Some? {
      return;
    }
    error := n.NormalizeInt(nums, "after_id", JInt(0));
    if error.Some? {
      return;
    }
    error := n.NormalizeInt(nums, "limit", JInt(500));
    if error.Some? {
      return;
    }
    if n.fields["after_id"].number < 0 {
      return Some(Invalid);
    }
    if n.fields["limit"].number <= 0 || n.fields["limit"].number > 1000 {
      return Some(Invalid);
    }
  }

  method ValidateQuery(nums: Numbers, a: Action, n: Request) returns (error: Option<Error>)
    modifies n
    ensures match Query(nums, a, old(n.fields))
            case Ok(m) => error.None? && n.fields == m
            case Err(e) => error == Some(e)
  {
    if a.GetOrders? && Truthy(Get(n.fields, "local_only")) {
      error := n.NormalizeIdentity(["client_id", "strategy_id"]);
      if error.Some? {
        return;
      }
    }
    if "force_refresh" in n.fields && !n.fields["force_refresh"].JBool? {
      return Some(Invalid);
    }
    if "max_age_ms" in n.fields {
      error := n.NormalizeInt(nums, "max_age_ms", JNull);
      if error.Some? {
        return;
      }
      if n.fields["max_age_ms"].number < 0 {
        return Some(Invalid);
      }
    }
    return None;
  }

  /** The part of `handle_command` before the session is called; the refusal, if any, is the response sent. */
  method PrepareCommand(nums: Numbers, request: Json) returns (r: Result<Prepared, (string, bool)>)
    ensures match Prepare(nums, request)
            case Ok(p) => r == Ok(p)
            case Err(e) => r == Err(Refusal(e))
  {
    var v := ValidateRequest(nums, request);
    if v.Err? {
      return Err(Refusal(v.error));
    }
    var (action, fields) := v.value;
    if action.GetOrders? && Truthy(Get(fields, "local_only")) {
      return Ok(Prepared(action, fields, None));
    }
    if !action.GetAccount? && !action.GetPositions? && !action.GetOrders? {
      return Ok(Prepared(action, fields, None));
    }
    if Truthy(Get(fields, "force_refresh")) {
      return Ok(Prepared(action, fields, None));
    }
    var ms := Get(fields, "max_age_ms");
    if ms.JNull? {
      return Ok(Prepared(action, fields, None));
    }
    var age := FloatOf(nums, ms);
    if age.Err? {
      return Err(Refusal(age.error));
    }
    return Ok(Prepared(action, fields, Some(age.value)));
  }
}
