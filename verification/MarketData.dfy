/** The session's quote subscriptions and the proxy commands above them. */
module MarketData {
  import opened Prelude
  import Symbols
  import opened Registry

  datatype QuoteCall = Quote(symbol: string) | Unquote(symbol: string)

  datatype Failure = Disabled | BadSymbol | NativeError

  predicate IsCanonical(s: string) {
    Symbols.Parse(s).Some? && Symbols.Canonical(Symbols.Parse(s).value) == s
  }

  /** The canonical form of every symbol, unless one does not parse. */
  function CanonicalAll(symbols: seq<string>): (r: Option<seq<string>>)
    ensures (forall s :: s in symbols ==> IsCanonical(s)) ==> r == Some(symbols)
  {
    if symbols == [] then Some([])
    else
      var n := |symbols| - 1;
      var init := CanonicalAll(symbols[..n]);
      var last := Symbols.Parse(symbols[n]);
      assert symbols == symbols[..n] + [symbols[n]];
      assert symbols[n] in symbols && forall s :: s in symbols[..n] ==> s in symbols;
      if init.None? || last.None? then None else Some(init.value + [Symbols.Canonical(last.value)])
  }

  function Quotes(symbols: seq<string>): seq<QuoteCall> {
    seq(|symbols|, i requires 0 <= i < |symbols| => Quote(symbols[i]))
  }

  function Unquotes(symbols: seq<string>): seq<QuoteCall> {
    seq(|symbols|, i requires 0 <= i < |symbols| => Unquote(symbols[i]))
  }

  /** The calls that went through when the native API raises after `accepted` of them. */
  function Prefix(symbols: seq<string>, accepted: nat): seq<string> {
    if accepted < |symbols| then symbols[..accepted] else symbols
  }

  // ---- What the exchange is subscribed to ----

  /** The symbols subscribed natively after some calls. */
  function Live(calls: seq<QuoteCall>): set<string> {
    if calls == [] then {}
    else
      var before := Live(calls[..|calls| - 1]);
      match calls[|calls| - 1]
      case Quote(s) => before + {s}
      case Unquote(s) => before - {s}
  }

  lemma {:induction false} LiveQuotes(calls: seq<QuoteCall>, symbols: seq<string>)
    ensures Live(calls + Quotes(symbols)) == Live(calls) + ToSet(symbols)
  {
    if symbols == [] {
      assert calls + Quotes(symbols) == calls;
    } else {
      var n := |symbols| - 1;
      LiveQuotes(calls, symbols[..n]);
      assert (calls + Quotes(symbols))[..|calls| + n] == calls + Quotes(symbols[..n]);
      assert symbols == symbols[..n] + [symbols[n]];
    }
  }

  lemma {:induction false} LiveUnquotes(calls: seq<QuoteCall>, symbols: seq<string>)
    ensures Live(calls + Unquotes(symbols)) == Live(calls) - ToSet(symbols)
  {
    if symbols == [] {
      assert calls + Unquotes(symbols) == calls;
    } else {
      var n := |symbols| - 1;
      LiveUnquotes(calls, symbols[..n]);
      assert (calls + Unquotes(symbols))[..|calls| + n] == calls + Unquotes(symbols[..n]);
      assert symbols == symbols[..n] + [symbols[n]];
    }
  }

  class MarketDataSession {
    const enabled: bool
    var active: set<string>
    var ready: bool
    var apiUp: bool
    ghost var calls: seq<QuoteCall>

    /** Configured symbols are taken as they are. */
    constructor (enabled: bool, initial: seq<string>)
      ensures this.enabled == enabled && active == ToSet(initial) && !ready && !apiUp && calls == []
    {
      this.enabled, active, ready, apiUp, calls := enabled, ToSet(initial), false, false, [];
    }

    method Normalize(symbols: seq<string>) returns (r: Option<seq<string>>)
      ensures r == CanonicalAll(symbols)
    {
      var names: seq<string> := [];
      for i := 0 to |symbols|
        invariant CanonicalAll(symbols[..i]) == Some(names)
      {
        assert symbols[..i + 1][..i] == symbols[..i];
        var parsed := Symbols.Parse(symbols[i]);
        if parsed.None? {
          NoneSticks(symbols, i + 1);
          return None;
        }
        names := names + [Symbols.Canonical(parsed.value)];
      }
      assert symbols[..|symbols|] == symbols;
      return Some(names);
    }

    /** `_subscribe_symbols`; the native call after `accepted` successful ones raises. */
    method SubscribeSymbols(symbols: seq<string>, accepted: nat) returns (ok: bool)
      modifies this`calls
      ensures ok <==> !apiUp || |symbols| <= accepted
      ensures calls == old(calls) + if apiUp then Quotes(Prefix(symbols, accepted)) else []
    {
      if |symbols| == 0 || !apiUp {
        return true;
      }
      for i := 0 to |symbols|
        invariant i <= accepted
        invariant calls == old(calls) + Quotes(symbols[..i])
      {
        if i == accepted {
          return false;
        }
        assert Quotes(symbols[..i + 1]) == Quotes(symbols[..i]) + [Quote(symbols[i])];
        calls := calls + [Quote(symbols[i])];
      }
      assert symbols[..|symbols|] == symbols;
      return true;
    }

    method Subscribe(symbols: seq<string>, accepted: nat) returns (r: Result<(), Failure>)
      modifies this`active, this`calls
      ensures var names := CanonicalAll(symbols);
              if !enabled then r == Err(Disabled) && active == old(active) && calls == old(calls)
              else if names.None? then r == Err(BadSymbol) && active == old(active) && calls == old(calls)
              else
                && active == old(active) + ToSet(names.value)
                && r == (if ready && apiUp && accepted < |names.value| then Err(NativeError) else Ok(()))
                && calls == old(calls) + (if ready && apiUp then Quotes(Prefix(names.value, accepted)) else [])
                && (r.Ok? && ready && apiUp ==> Live(calls) == Live(old(calls)) + ToSet(names.value))
    {
      if !enabled {
        return Err(Disabled);
      }
      var names := Normalize(symbols);
      if names.None? {
        return Err(BadSymbol);
      }
      for i := 0 to |names.value|
        invariant active == old(active) + ToSet(names.value[..i]) && calls == old(calls)
      {
        active := active + {names.value[i]};
        assert names.value[..i + 1] == names.value[..i] + [names.value[i]];
      }
      assert names.value[..|names.value|] == names.value;
      if ready {
        var ok := SubscribeSymbols(names.value, accepted);
        if !ok {
          return Err(NativeError);
        }
        LiveQuotes(old(calls), names.value);
      }
      return Ok(());
    }

    /**
     * `on_md_ready`: raise the flag, then quote every active symbol, in some
     * order; a native exception after `accepted` of them ends the callback.
     */
    method OnMdReady(accepted: nat) returns (order: seq<string>, ok: bool)
      modifies this`ready, this`calls
      ensures ready && Enumerates(order, active)
      ensures ok <==> !apiUp || |order| <= accepted
      ensures calls == old(calls) + if apiUp then Quotes(Prefix(order, accepted)) else []
      ensures ok && apiUp ==> Live(calls) == Live(old(calls)) + active
    {
      ready := true;
      order := [];
      var rest := active;
      while rest != {}
        modifies {}
        invariant rest <= active && Enumerates(order, active - rest)
        decreases rest
      {
        var s :| s in rest;
        OrderExtends(order, s, active - rest);
        assert active - (rest - {s}) == (active - rest) + {s};
        order, rest := order + [s], rest - {s};
      }
      assert active - rest == active;
      ok := SubscribeSymbols(order, accepted);
      LiveQuotes(old(calls), order);
      assert ToSet(order) == active;
    }

    /** The closing loop of `unsubscribe_market_data`. */
    method UnsubscribeSymbols(symbols: seq<string>, accepted: nat) returns (ok: bool)
      modifies this`calls
      ensures ok <==> |symbols| <= accepted
      ensures calls == old(calls) + Unquotes(Prefix(symbols, accepted))
    {
      for i := 0 to |symbols|
        invariant i <= accepted
        invariant calls == old(calls) + Unquotes(symbols[..i])
      {
        if i == accepted {
          return false;
        }
        assert Unquotes(symbols[..i + 1]) == Unquotes(symbols[..i]) + [Unquote(symbols[i])];
        calls := calls + [Unquote(symbols[i])];
      }
      assert symbols[..|symbols|] == symbols;
      return true;
    }

    /** `supported`: the native API exposes an unsubscribe call. */
    method Unsubscribe(symbols: seq<string>, supported: bool, accepted: nat) returns (r: Result<(), Failure>)
      modifies this`active, this`calls
      ensures var names := CanonicalAll(symbols);
              if !enabled then r == Err(Disabled) && active == old(active) && calls == old(calls)
              else if names.None? then r == Err(BadSymbol) && active == old(active) && calls == old(calls)
              else
                && active == old(active) - ToSet(names.value)
                && r == (if ready && apiUp && supported && accepted < |names.value| then Err(NativeError) else Ok(()))
                && calls == old(calls) + (if ready && apiUp && supported then Unquotes(Prefix(names.value, accepted))
                                          else [])
                && (r.Ok? && ready && apiUp && supported ==> Live(calls) == Live(old(calls)) - ToSet(names.value))
    {
      if !enabled {
        return Err(Disabled);
      }
      var names := Normalize(symbols);
      if names.None? {
        return Err(BadSymbol);
      }
      for i := 0 to |names.value|
        invariant active == old(active) - ToSet(names.value[..i]) && calls == old(calls)
      {
        active := active - {names.value[i]};
        assert names.value[..i + 1] == names.value[..i] + [names.value[i]];
      }
      assert names.value[..|names.value|] == names.value;
      if !apiUp || !ready || !supported {
        return Ok(());
      }
      var ok := UnsubscribeSymbols(names.value, accepted);
      LiveUnquotes(old(calls), names.value);
      return if ok then Ok(()) else Err(NativeError);
    }
  }

  lemma OrderExtends(order: seq<string>, s: string, done: set<string>)
    requires Enumerates(order, done) && s !in done
    ensures Enumerates(order + [s], done + {s})
  {
  }

  lemma {:induction false} NoneSticks(symbols: seq<string>, n: nat)
    requires n <= |symbols| && CanonicalAll(symbols[..n]).None?
    ensures CanonicalAll(symbols).None?
  {
    if n < |symbols| {
      var m := |symbols| - 1;
      assert symbols[..m][..n] == symbols[..n];
      NoneSticks(symbols[..m], n);
    } else {
      assert symbols[..n] == symbols;
    }
  }

  ghost predicate AllParse(symbols: seq<string>) {
    forall s :: s in symbols ==> Symbols.Parse(s).Some?
  }

  lemma CanonicalAllStep(symbols: seq<string>)
    requires symbols != []
    ensures var n := |symbols| - 1;
            CanonicalAll(symbols).Some? <==> CanonicalAll(symbols[..n]).Some? && Symbols.Parse(symbols[n]).Some?
  {
  }

  lemma AllParseStep(symbols: seq<string>)
    requires symbols != []
    ensures var n := |symbols| - 1; AllParse(symbols) <==> AllParse(symbols[..n]) && Symbols.Parse(symbols[n]).Some?
  {
    assert symbols == symbols[..|symbols| - 1] + [symbols[|symbols| - 1]];
  }

  /** The names exist exactly when every symbol parses. */
  lemma {:induction false} CanonicalAllExists(symbols: seq<string>)
    ensures CanonicalAll(symbols).Some? <==> AllParse(symbols)
  {
    if symbols != [] {
      CanonicalAllExists(symbols[..|symbols| - 1]);
      CanonicalAllStep(symbols);
      AllParseStep(symbols);
    }
  }

  /** Each is the canonical text of the symbol in its place. */
  lemma {:induction false} CanonicalAllAt(symbols: seq<string>, i: nat)
    requires CanonicalAll(symbols).Some?
    ensures |CanonicalAll(symbols).value| == |symbols|
    ensures i < |symbols| ==>
              var name := CanonicalAll(symbols).value[i];
              IsCanonical(name) && Symbols.Parse(name) == Symbols.Parse(symbols[i])
  {
    if symbols != [] {
      var n := |symbols| - 1;
      CanonicalAllAt(symbols[..n], i);
      Symbols.ParseCanonical(symbols[n]);
    }
  }

  // ---- Both layers under the proxy's commands ----

  /** The registry's owner sets and the session's active symbols. */
  datatype Layers = Layers(registry: Owners, active: set<string>)

  /** `failed`: the session raised after it had updated its own set. */
  function SubscribeCommand(l: Layers, owner: Owner, symbols: seq<string>, failed: bool): Layers {
    var (reg, added) := Subscribed(l.registry, owner, symbols);
    Layers(if failed then Unsubscribed(reg, owner, symbols).0 else reg, l.active + ToSet(added))
  }

  function UnsubscribeCommand(l: Layers, owner: Owner, symbols: seq<string>, failed: bool): Layers {
    var (reg, gone) := Unsubscribed(l.registry, owner, symbols);
    Layers(if failed then Subscribed(reg, owner, symbols).0 else reg, l.active - ToSet(gone))
  }

  class TapProxy {
    const subscriptions: SubscriptionRegistry
    const session: MarketDataSession

    ghost predicate Valid()
      reads this, subscriptions
    {
      subscriptions.Valid()
    }

    ghost function View(): Layers
      reads this, subscriptions, session
    {
      Layers(subscriptions.owners, session.active)
    }

    constructor (enabled: bool, initial: seq<string>, normalized: seq<string>)
      ensures Valid() && session.enabled == enabled && fresh(subscriptions) && fresh(session)
      ensures View() == Layers(Subscribed(map[], Owner("proxy", "startup"), normalized).0, ToSet(initial))
    {
      var registry := new SubscriptionRegistry();
      var added := registry.Subscribe(Owner("proxy", "startup"), normalized);
      subscriptions := registry;
      var s := new MarketDataSession(enabled, initial);
      session := s;
    }

    method HandleSubscribe(owner: Owner, symbols: seq<string>, accepted: nat) returns (r: Result<seq<string>, Failure>)
      requires Valid() && forall s :: s in symbols ==> IsCanonical(s)
      modifies subscriptions, session
      ensures Valid() && session.ready == old(session.ready)
      ensures !session.enabled ==> r == Err(Disabled) && View() == old(View())
      ensures session.enabled ==>
                var added := Subscribed(old(subscriptions.owners), owner, symbols).1;
                var failed := session.ready && session.apiUp && accepted < |added|;
                && View() == SubscribeCommand(old(View()), owner, symbols, failed)
                && r == if failed then Err(NativeError) else Ok(added)
    {
      if !session.enabled {
        return Err(Disabled);
      }
      var added := subscriptions.Subscribe(owner, symbols);
      AddedListed(old(subscriptions.owners), owner, symbols);
      var done := session.Subscribe(added, accepted);
      if done.Err? {
        var gone := subscriptions.Unsubscribe(owner, symbols);
        return Err(done.error);
      }
      return Ok(added);
    }

    method HandleUnsubscribe(owner: Owner, symbols: seq<string>, supported: bool, accepted: nat)
        returns (r: Result<seq<string>, Failure>)
      requires Valid() && forall s :: s in symbols ==> IsCanonical(s)
      modifies subscriptions, session
      ensures Valid() && session.ready == old(session.ready)
      ensures !session.enabled ==> r == Err(Disabled) && View() == old(View())
      ensures session.enabled ==>
                var gone := Unsubscribed(old(subscriptions.owners), owner, symbols).1;
                var failed := session.ready && session.apiUp && supported && accepted < |gone|;
                && View() == UnsubscribeCommand(old(View()), owner, symbols, failed)
                && r == if failed then Err(NativeError) else Ok(gone)
    {
      if !session.enabled {
        return Err(Disabled);
      }
      var gone := subscriptions.Unsubscribe(owner, symbols);
      GoneListed(old(subscriptions.owners), owner, symbols);
      var done := session.Unsubscribe(gone, supported, accepted);
      if done.Err? {
        var added := subscriptions.Subscribe(owner, symbols);
        return Err(done.error);
      }
      return Ok(gone);
    }
  }

  lemma {:induction false} AddedListed(reg: Owners, owner: Owner, symbols: seq<string>)
    ensures forall s :: s in Subscribed(reg, owner, symbols).1 ==> s in symbols
  {
    if symbols != [] {
      var n := |symbols| - 1;
      assert symbols == symbols[..n] + [symbols[n]];
      AddedListed(reg, owner, symbols[..n]);
    }
  }

  lemma {:induction false} GoneListed(reg: Owners, owner: Owner, symbols: seq<string>)
    ensures forall s :: s in Unsubscribed(reg, owner, symbols).1 ==> s in symbols
  {
    if symbols != [] {
      var n := |symbols| - 1;
      assert symbols == symbols[..n] + [symbols[n]];
      GoneListed(reg, owner, symbols[..n]);
    }
  }

  // ---- Agreement ----

  ghost predicate Agree(l: Layers) {
    Counted(l.registry) && l.registry.Keys == l.active
  }

  /** The session is told to subscribe exactly the symbols that became registered. */
  lemma AddedMeans(reg: Owners, owner: Owner, symbols: seq<string>)
    requires Counted(reg)
    ensures var (r, added) := Subscribed(reg, owner, symbols);
            && Counted(r)
            && r.Keys == reg.Keys + ToSet(symbols)
            && ToSet(added) == ToSet(symbols) - reg.Keys
  {
    var dead := ToSet(symbols) - reg.Keys;
    SubscribedReply(reg, owner, symbols, dead);
    forall s ensures s in Subscribed(reg, owner, symbols).0 <==> s in reg || s in symbols {
      SubscribedHolders(reg, owner, symbols, s);
    }
    SubscribedHolders(reg, owner, symbols, "");
  }

  /** And to unsubscribe exactly those the owner alone held. */
  lemma GoneMeans(reg: Owners, owner: Owner, symbols: seq<string>)
    requires Counted(reg)
    ensures var (r, gone) := Unsubscribed(reg, owner, symbols);
            && Counted(r)
            && r.Keys == reg.Keys - ToSet(gone)
            && (forall s :: s in gone <==> s in symbols && SoleHolder(reg, owner, s))
  {
    var sole := set s | s in reg && SoleHolder(reg, owner, s);
    UnsubscribedReply(reg, owner, symbols, sole);
    forall s
      ensures s in Unsubscribed(reg, owner, symbols).0 <==> s in reg && !(s in symbols && SoleHolder(reg, owner, s))
    {
      UnsubscribedHolders(reg, owner, symbols, s);
    }
    UnsubscribedHolders(reg, owner, symbols, "");
  }

  /**
   * A failed subscribe leaves every registered symbol active in the session, and
   * it restores the registry exactly when the owner held none of the symbols.
   */
  lemma FailedSubscribe(l: Layers, owner: Owner, symbols: seq<string>)
    requires Counted(l.registry) && l.registry.Keys <= l.active
    ensures var l' := SubscribeCommand(l, owner, symbols, true);
            && Counted(l'.registry) && l'.registry.Keys <= l'.active
            && (l'.registry == l.registry <==> forall s :: s in symbols ==> owner !in Holders(l.registry, s))
  {
    var reg := Subscribed(l.registry, owner, symbols).0;
    var l' := SubscribeCommand(l, owner, symbols, true);
    AddedMeans(l.registry, owner, symbols);
    GoneMeans(reg, owner, symbols);
    forall s
      ensures Holders(l'.registry, s) == Holders(l.registry, s) - (if s in symbols then {owner} else {})
      ensures s in l'.registry ==> s in l.registry
    {
      SubscribedHolders(l.registry, owner, symbols, s);
      UnsubscribedHolders(reg, owner, symbols, s);
    }
    if forall s :: s in symbols ==> owner !in Holders(l.registry, s) {
      HoldersDecide(l'.registry, l.registry);
    } else {
      var s :| s in symbols && owner in Holders(l.registry, s);
      assert owner !in Holders(l'.registry, s);
    }
  }

  /**
   * A failed unsubscribe restores the registry exactly when the owner held all
   * of the symbols. It always breaks the agreement: the symbols it gave up are
   * registered again, while the session has dropped them.
   */
  lemma FailedUnsubscribe(l: Layers, owner: Owner, symbols: seq<string>)
    requires Counted(l.registry) && Unsubscribed(l.registry, owner, symbols).1 != []
    ensures var l' := UnsubscribeCommand(l, owner, symbols, true);
            && (l'.registry == l.registry <==> forall s :: s in symbols ==> owner in Holders(l.registry, s))
            && exists s :: s in l'.registry && s !in l'.active
  {
    var (reg, gone) := Unsubscribed(l.registry, owner, symbols);
    var l' := UnsubscribeCommand(l, owner, symbols, true);
    GoneMeans(l.registry, owner, symbols);
    AddedMeans(reg, owner, symbols);
    forall s ensures Holders(l'.registry, s) == Holders(l.registry, s) + (if s in symbols then {owner} else {}) {
      UnsubscribedHolders(l.registry, owner, symbols, s);
      SubscribedHolders(reg, owner, symbols, s);
    }
    if forall s :: s in symbols ==> owner in Holders(l.registry, s) {
      HoldersDecide(l'.registry, l.registry);
    } else {
      var s :| s in symbols && owner !in Holders(l.registry, s);
      assert owner in Holders(l'.registry, s);
    }
    assert gone[0] in gone && gone[0] in ToSet(gone);
    assert gone[0] in l'.registry && gone[0] !in l'.active;
  }

  // ---- Command sequences ----

  /** `failed`: the native call of the command raised. */
  datatype Command =
    | Subscribe(owner: Owner, symbols: seq<string>, failed: bool)
    | Unsubscribe(owner: Owner, symbols: seq<string>, failed: bool)

  function Commands(l: Layers, cmds: seq<Command>): Layers {
    if cmds == [] then l
    else
      var before := Commands(l, cmds[..|cmds| - 1]);
      match cmds[|cmds| - 1]
      case Subscribe(owner, symbols, failed) => SubscribeCommand(before, owner, symbols, failed)
      case Unsubscribe(owner, symbols, failed) => UnsubscribeCommand(before, owner, symbols, failed)
  }

  /** Without native exceptions the layers agree after every command if they agreed at startup. */
  lemma {:induction false} LayersAgree(l: Layers, cmds: seq<Command>)
    requires Agree(l) && forall c :: c in cmds ==> !c.failed
    ensures Agree(Commands(l, cmds))
  {
    if cmds != [] {
      var n := |cmds| - 1;
      assert cmds[n] in cmds;
      LayersAgree(l, cmds[..n]);
      var before := Commands(l, cmds[..n]);
      match cmds[n] {
        case Subscribe(owner, symbols, _) => AddedMeans(before.registry, owner, symbols);
        case Unsubscribe(owner, symbols, _) => GoneMeans(before.registry, owner, symbols);
      }
    }
  }

  /**
   * Whatever subscribes raise, every registered symbol stays active in the session
   * as long as no unsubscribe raises.
   */
  lemma {:induction false} SessionCovers(l: Layers, cmds: seq<Command>)
    requires Counted(l.registry) && l.registry.Keys <= l.active
    requires forall c :: c in cmds && c.Unsubscribe? ==> !c.failed
    ensures var l' := Commands(l, cmds); Counted(l'.registry) && l'.registry.Keys <= l'.active
  {
    if cmds != [] {
      var n := |cmds| - 1;
      assert cmds[n] in cmds;
      SessionCovers(l, cmds[..n]);
      var before := Commands(l, cmds[..n]);
      match cmds[n] {
        case Subscribe(owner, symbols, failed) =>
          if failed { FailedSubscribe(before, owner, symbols); } else { AddedMeans(before.registry, owner, symbols); }
        case Unsubscribe(owner, symbols, _) => GoneMeans(before.registry, owner, symbols);
      }
    }
  }
}
