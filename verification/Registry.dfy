/** Reference counting of market-data subscriptions by client and strategy. */
module Registry {
  import opened Prelude

  type Owners = map<string, set<Owner>>

  ghost predicate Counted(reg: Owners) {
    forall s :: s in reg ==> reg[s] != {}
  }

  function Holders(reg: Owners, symbol: string): set<Owner> {
    if symbol in reg then reg[symbol] else {}
  }

  /** The loop of `subscribe`, one symbol at a time. */
  function Subscribed(reg: Owners, owner: Owner, symbols: seq<string>): (Owners, seq<string>) {
    if symbols == [] then (reg, [])
    else
      var (r, added) := Subscribed(reg, owner, symbols[..|symbols| - 1]);
      var s := symbols[|symbols| - 1];
      (r[s := Holders(r, s) + {owner}], if Holders(r, s) == {} then added + [s] else added)
  }

  /** The loop of `unsubscribe`. */
  function Unsubscribed(reg: Owners, owner: Owner, symbols: seq<string>): (Owners, seq<string>) {
    if symbols == [] then (reg, [])
    else
      var (r, gone) := Unsubscribed(reg, owner, symbols[..|symbols| - 1]);
      var s := symbols[|symbols| - 1];
      if Holders(r, s) == {} then (r, gone)
      else if r[s] - {owner} == {} then (r - {s}, gone + [s])
      else (r[s := r[s] - {owner}], gone)
  }

  class SubscriptionRegistry {
    var owners: Owners

    ghost predicate Valid()
      reads this
    {
      Counted(owners)
    }

    constructor ()
      ensures Valid() && owners == map[]
    {
      owners := map[];
    }

    method Subscribe(owner: Owner, symbols: seq<string>) returns (newlyActive: seq<string>)
      requires Valid()
      modifies this
      ensures Valid()
      ensures (owners, newlyActive) == Subscribed(old(owners), owner, symbols)
    {
      newlyActive := [];
      for i := 0 to |symbols|
        invariant Valid()
        invariant (owners, newlyActive) == Subscribed(old(owners), owner, symbols[..i])
      {
        assert symbols[..i + 1][..i] == symbols[..i];
        var symbol := symbols[i];
        var holders := if symbol in owners then owners[symbol] else {};
        if holders == {} {
          newlyActive := newlyActive + [symbol];
        }
        owners := owners[symbol := holders + {owner}];
      }
      assert symbols[..|symbols|] == symbols;
    }

    method Unsubscribe(owner: Owner, symbols: seq<string>) returns (newlyInactive: seq<string>)
      requires Valid()
      modifies this
      ensures Valid()
      ensures (owners, newlyInactive) == Unsubscribed(old(owners), owner, symbols)
    {
      newlyInactive := [];
      for i := 0 to |symbols|
        invariant Valid()
        invariant (owners, newlyInactive) == Unsubscribed(old(owners), owner, symbols[..i])
      {
        assert symbols[..i + 1][..i] == symbols[..i];
        var symbol := symbols[i];
        if symbol !in owners {
          continue;
        }
        var left := owners[symbol] - {owner};
        if left == {} {
          owners := owners - {symbol};
          newlyInactive := newlyInactive + [symbol];
        } else {
          owners := owners[symbol := left];
        }
      }
      assert symbols[..|symbols|] == symbols;
    }

    method ActiveSymbols() returns (symbols: set<string>)
      ensures symbols == owners.Keys
    {
      symbols := owners.Keys;
    }
  }

  // ---- What the loops amount to ----

  /** The elements of `symbols` that lie in `chosen`, in order. */
  function Pick(symbols: seq<string>, chosen: set<string>): (r: seq<string>)
    ensures forall s :: s in r <==> s in symbols && s in chosen
  {
    if symbols == [] then []
    else
      var s := symbols[|symbols| - 1];
      assert symbols == symbols[..|symbols| - 1] + [s];
      Pick(symbols[..|symbols| - 1], chosen) + if s in chosen then [s] else []
  }

  lemma PickLast(symbols: seq<string>, chosen: set<string>)
    requires symbols != []
    ensures var init, last := symbols[..|symbols| - 1], symbols[|symbols| - 1];
            Distinct(Pick(symbols, chosen)) ==
              Distinct(Pick(init, chosen)) + if last in chosen && last !in init then [last] else []
  {
    var init, last := symbols[..|symbols| - 1], symbols[|symbols| - 1];
    DistinctAppend(Pick(init, chosen), last);
    if last !in chosen {
      assert Pick(symbols, chosen) == Pick(init, chosen);
    }
  }

  /** Subscribing adds the owner to every listed symbol and touches no other. */
  lemma {:induction false} SubscribedHolders(reg: Owners, owner: Owner, symbols: seq<string>, s: string)
    requires Counted(reg)
    ensures var r := Subscribed(reg, owner, symbols).0;
            && Counted(r)
            && Holders(r, s) == Holders(reg, s) + (if s in symbols then {owner} else {})
            && (s in r <==> s in reg || s in symbols)
  {
    if symbols != [] {
      var n := |symbols| - 1;
      assert symbols == symbols[..n] + [symbols[n]];
      SubscribedHolders(reg, owner, symbols[..n], s);
    }
  }

  /** The reply lists the symbols nobody held before, once each, in request order. */
  lemma {:induction false} SubscribedReply(reg: Owners, owner: Owner, symbols: seq<string>, dead: set<string>)
    requires Counted(reg) && forall s :: s in symbols ==> (s in dead <==> s !in reg)
    ensures Subscribed(reg, owner, symbols).1 == Distinct(Pick(symbols, dead))
  {
    if symbols != [] {
      var n := |symbols| - 1;
      var init, last := symbols[..n], symbols[n];
      assert symbols == init + [last];
      SubscribedReply(reg, owner, init, dead);
      var r := Subscribed(reg, owner, init).0;
      assert Holders(r, last) == {} <==> last in dead && last !in init by {
        SubscribedHolders(reg, owner, init, last);
      }
      PickLast(symbols, dead);
    }
  }

  /** The owner alone holds the symbol. */
  ghost predicate SoleHolder(reg: Owners, owner: Owner, s: string) {
    s in reg && reg[s] == {owner}
  }

  /** Unsubscribing removes the owner from every listed symbol and touches no other. */
  lemma {:induction false} UnsubscribedHolders(reg: Owners, owner: Owner, symbols: seq<string>, s: string)
    requires Counted(reg)
    ensures var r := Unsubscribed(reg, owner, symbols).0;
            && Counted(r)
            && Holders(r, s) == Holders(reg, s) - (if s in symbols then {owner} else {})
            && (s in r <==> s in reg && !(s in symbols && SoleHolder(reg, owner, s)))
  {
    if symbols != [] {
      var n := |symbols| - 1;
      assert symbols == symbols[..n] + [symbols[n]];
      UnsubscribedHolders(reg, owner, symbols[..n], s);
    }
  }

  /** The reply lists the symbols the owner alone held, once each, in request order. */
  lemma {:induction false} UnsubscribedReply(reg: Owners, owner: Owner, symbols: seq<string>, sole: set<string>)
    requires Counted(reg) && forall s :: s in symbols ==> (s in sole <==> SoleHolder(reg, owner, s))
    ensures Unsubscribed(reg, owner, symbols).1 == Distinct(Pick(symbols, sole))
  {
    if symbols != [] {
      var n := |symbols| - 1;
      var init, last := symbols[..n], symbols[n];
      assert symbols == init + [last];
      UnsubscribedReply(reg, owner, init, sole);
      var r := Unsubscribed(reg, owner, init).0;
      assert Holders(r, last) != {} && r[last] - {owner} == {} <==> last in sole && last !in init by {
        UnsubscribedHolders(reg, owner, init, last);
      }
      PickLast(symbols, sole);
    }
  }

  lemma HoldersDecide(a: Owners, b: Owners)
    requires Counted(a) && Counted(b) && forall s :: Holders(a, s) == Holders(b, s)
    ensures a == b
  {
    forall s ensures s in a <==> s in b {
      assert Holders(a, s) == Holders(b, s);
    }
    forall s | s in a ensures a[s] == b[s] {
      assert Holders(a, s) == Holders(b, s);
    }
  }

  // ---- Conservation over call sequences ----

  datatype Op = Sub(owner: Owner, symbols: seq<string>) | Unsub(owner: Owner, symbols: seq<string>)

  /** The registry after some calls, with everything reported active and inactive. */
  function Calls(reg: Owners, ops: seq<Op>): (Owners, seq<string>, seq<string>) {
    if ops == [] then (reg, [], [])
    else
      var (r, activated, deactivated) := Calls(reg, ops[..|ops| - 1]);
      match ops[|ops| - 1]
      case Sub(owner, symbols) =>
        var (r', added) := Subscribed(r, owner, symbols);
        (r', activated + added, deactivated)
      case Unsub(owner, symbols) =>
        var (r', gone) := Unsubscribed(r, owner, symbols);
        (r', activated, deactivated + gone)
  }

  lemma NoDupCount(s: seq<string>, x: string)
    requires NoDup(s)
    ensures multiset(s)[x] == if x in s then 1 else 0
  {
    if x in s {
      var i :| 0 <= i < |s| && s[i] == x;
      assert s == s[..i] + [x] + s[i + 1..];
      assert x !in s[..i] && x !in s[i + 1..];
    }
  }

  /**
   * Over any call sequence no owner set is empty, and for each symbol the number
   * of times it was reported newly active minus newly inactive is one if it is
   * active and zero otherwise.
   */
  lemma {:induction false} Conservation(ops: seq<Op>, s: string)
    ensures var (r, activated, deactivated) := Calls(map[], ops);
            && Counted(r)
            && multiset(activated)[s] == multiset(deactivated)[s] + if s in r then 1 else 0
  {
    if ops != [] {
      var n := |ops| - 1;
      Conservation(ops[..n], s);
      var (r, activated, deactivated) := Calls(map[], ops[..n]);
      match ops[n] {
        case Sub(owner, symbols) =>
          var dead := ToSet(symbols) - r.Keys;
          SubscribedHolders(r, owner, symbols, s);
          SubscribedReply(r, owner, symbols, dead);
          var added := Distinct(Pick(symbols, dead));
          NoDupCount(added, s);
          assert multiset(activated + added)[s] == multiset(activated)[s] + multiset(added)[s];
        case Unsub(owner, symbols) =>
          var sole := set x | x in r && r[x] == {owner};
          UnsubscribedHolders(r, owner, symbols, s);
          UnsubscribedReply(r, owner, symbols, sole);
          var gone := Distinct(Pick(symbols, sole));
          NoDupCount(gone, s);
          assert multiset(deactivated + gone)[s] == multiset(deactivated)[s] + multiset(gone)[s];
      }
    }
  }
}
