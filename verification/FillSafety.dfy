/** Fills: who they belong to, that each is recorded once, and when it is published. */
module FillSafety {
  import opened Prelude
  import opened Text
  import opened OrderStore
  import opened OrderLifecycle
  import opened SubmissionSafety
  import opened OrderIndexes
  import T = TradeStore

  // ---- Attribution ----

  /** The fill was attributed to nobody, or to the order whose native id is `n`. */
  ghost predicate AttributedTo(w: World, a: Attribution, n: string) {
    a.identity.Some? ==>
      var k := a.identity.value.key;
      k in w.rows && w.rows[k].native == n && a.identity.value.symbol == w.rows[k].symbol
  }

  /** The exchange never gives two orders the same OrderNo. */
  ghost predicate OrderNosUnique(env: Env) {
    forall n, m :: env.pair(n).0 == env.pair(m).0 ==> n == m
  }

  /**
   * A fill of order `n` carries its OrderNo and its ServerFlag, or the OrderNo
   * alone. Whatever either store answers to the fallback lookup, it is never
   * attributed to another order - for a flagged fill always, for a fill without
   * flag as long as order numbers alone are unique.
   */
  lemma FillAttribution(env: Env, events: seq<Event>, st: State, n: string, serverFlag: string, found: Option<Key>)
    requires Proper(env) && Honestly(env, events, st) && st.up && n != ""
    requires (serverFlag != "" && serverFlag == env.pair(n).1) || (serverFlag == "" && OrderNosUnique(env))
    requires Answers(st.world.rows, ByOrderNo(env.pair(n).0, serverFlag), found)
    ensures AttributedTo(st.world, Attribute(st.world, env.pair(n).0, serverFlag, found), n)
  {
    RunIndexes(env, events, st, false);
    AttributionOf(env, st, n, serverFlag, found);
  }

  lemma AttributionOf(env: Env, st: State, n: string, serverFlag: string, found: Option<Key>)
    requires Proper(env) && Indexes(env, st, false) && st.up && n != ""
    requires (serverFlag != "" && serverFlag == env.pair(n).1) || (serverFlag == "" && OrderNosUnique(env))
    requires Answers(st.world.rows, ByOrderNo(env.pair(n).0, serverFlag), found)
    ensures AttributedTo(st.world, Attribute(st.world, env.pair(n).0, serverFlag, found), n)
  {
    var w, p := st.world, (env.pair(n).0, serverFlag);
    if p in w.session.nativeByOrderKey {
      var m := w.session.nativeByOrderKey[p];
      assert env.pair(m) == p;
      assert m == n;
    } else if found.Some? {
      var r := w.rows[found.value];
      assert (r.orderNo, r.serverFlag) == env.pair(r.native);
      assert r.native == n;
    }
  }

  /** Once both the native id and the order key are indexed, a flagged fill is attributed to its order. */
  lemma FillAttributed(env: Env, events: seq<Event>, st: State, k: Key, found: Option<Key>)
    requires Proper(env) && Honestly(env, events, st) && st.up && k in st.world.rows
    requires var n := st.world.rows[k].native;
             n != "" && n in st.world.session.identityByNative && n in st.world.session.orderNoByNative
    ensures var p := env.pair(st.world.rows[k].native);
            Attribute(st.world, p.0, p.1, found).identity == Some(Identity(k, st.world.rows[k].symbol))
  {
    RunIndexes(env, events, st, false);
    var n := st.world.rows[k].native;
    assert st.world.session.nativeByOrderKey[env.pair(n)] == n;
    assert st.world.session.identityByNative[n].key == k;
  }

  /**
   * The condition is needed: whenever two orders can share an OrderNo, some run
   * attributes a fill of one, sent without flag, to the owner of the other.
   */
  lemma SharedOrderNoMisattributes(env: Env, n: string, m: string, k: Key, l: Key)
      returns (events: seq<Event>, st: State)
    requires Proper(env) && n != "" && m != "" && n != m && env.pair(n).0 == env.pair(m).0 && k != l
    ensures Honestly(env, events, st) && st.up
    ensures k in st.world.rows && st.world.rows[k].native == n && l in st.world.rows && st.world.rows[l].native == m
    ensures Answers(st.world.rows, ByOrderNo(env.pair(n).0, ""), Some(l))
    ensures Attribute(st.world, env.pair(n).0, "", Some(l)).identity == Some(Identity(l, "second"))
  {
    FirstStart(env);
    st := START.(up := true);
    events := PlaceAccepted(env, [Restart([])], st, k, "first", n);
    st := st.(world := Accepting(st.world, k, "first", n));
    events := PlaceAccepted(env, events, st, l, "second", m);
    st := st.(world := Accepting(st.world, l, "second", m));
    var e := OrderChanged(OrderUpdate(m, env.pair(m).0, env.pair(m).1, Submitted, true), Some(l));
    ExtendHonestly(env, events, st, e);
    events, st := events + [e], Step(env, st, e);
    assert st.world.rows[l].orderNo == env.pair(n).0;
    assert st.world.session.identityByNative[m] == Identity(l, "second");
    assert st.world.session.nativeByOrderKey == map[env.pair(m) := m];
  }

  // ---- Recorded once, stored before published, published once ----

  ghost predicate Before(p: Publication, q: Publication) {
    p.row.id < q.row.id || (p.row == q.row && p.topic != q.topic)
  }

  ghost predicate Backed(w: World) {
    && T.Ascending(w.trades) && T.UniqueEvents(w.trades)
    && (forall i :: 0 <= i < |w.log.published| ==> w.log.published[i].row in w.trades)
    && forall i, j :: 0 <= i < j < |w.log.published| ==> Before(w.log.published[i], w.log.published[j])
  }

  /** The fill being published is stored last and not yet on its remaining topics. */
  ghost predicate Announcing(w: World, p: Publishing) {
    && w.trades != [] && p.row == w.trades[|w.trades| - 1]
    && p.topics != [] && NoDup(p.topics)
    && forall i, t :: 0 <= i < |w.log.published| && t in p.topics ==> Before(w.log.published[i], Publication(t, p.row))
  }

  ghost predicate Published(st: State) {
    Backed(st.world) && (st.publishing.Some? ==> Announcing(st.world, st.publishing.value))
  }

  lemma TopicsDistinct(accountId: string, identity: Option<Identity>)
    ensures Topics(accountId, identity) != [] && NoDup(Topics(accountId, identity))
  {
    var t := Topics(accountId, identity);
    if |t| == 2 { assert |t[0]| < |t[1]|; }
  }

  lemma RecordPublished(env: Env, w: World, f: Fill, found: Option<Key>, gap: nat)
    requires Backed(w)
    ensures var (w', p) := RecordFill(env.digest, w, f, found, gap);
            Backed(w') && (p.Some? ==> Announcing(w', p.value))
  {
    var a := Attribute(w, f.orderNo, f.serverFlag, found);
    T.RecordKeepsTable(w.trades, TradeOf(env.digest, f, a), gap);
    TopicsDistinct(f.accountId, a.identity);
    var (w', p) := RecordFill(env.digest, w, f, found, gap);
    assert w'.log == w.log;
    if p.Some? {
      forall i, t | 0 <= i < |w.log.published| && t in p.value.topics
        ensures Before(w.log.published[i], Publication(t, p.value.row))
      {
        var row := w.log.published[i].row;
        var j :| 0 <= j < |w.trades| && w.trades[j] == row;
      }
    }
  }

  lemma PublishPublished(w: World, p: Publishing)
    requires Backed(w) && Announcing(w, p)
    ensures var (w', p') := PublishNext(w, p);
            Backed(w') && (p'.Some? ==> Announcing(w', p'.value))
  {
    var (w', p') := PublishNext(w, p);
    var next := Publication(p.topics[0], p.row);
    assert w'.log.published == w.log.published + [next] && w'.trades == w.trades;
    assert p.topics[0] in p.topics;
    if p'.Some? {
      var rest := p'.value.topics;
      assert forall t :: t in rest ==> t in p.topics;
      forall t | t in rest ensures Before(next, Publication(t, p.row)) {
        var j :| 0 <= j < |rest| && rest[j] == t;
        assert p.topics[j + 1] == t;
      }
    }
  }

  lemma OtherPublished(env: Env, st: State, e: Event)
    requires Enabled(env, st, e) && !e.Filled? && !e.Publish?
    ensures var st' := Step(env, st, e);
            && st'.world.trades == st.world.trades && st'.world.log.published == st.world.log.published
            && st'.publishing == (if e.Crash? then None else st.publishing)
  {
  }

  lemma {:induction false} RunPublished(env: Env, events: seq<Event>, st: State)
    requires Reaches(env, START, events, st)
    ensures Published(st)
  {
    if events != [] {
      var n := |events| - 1;
      var e, before := events[n], Run(env, START, events[..n]).value;
      RunPublished(env, events[..n], before);
      match e
      case Filled(f, found, gap) => RecordPublished(env, before.world, f, found, gap);
      case Publish => PublishPublished(before.world, before.publishing.value);
      case _ => OtherPublished(env, before, e);
    }
  }

  /**
   * Exactly once and persist before publish, over every run with crashes: each
   * event id has one stored row; whatever was published is stored with that
   * cursor; no event is published twice on a topic; and on each topic the
   * published cursors strictly increase.
   */
  lemma ExactlyOnce(env: Env, events: seq<Event>, st: State)
    requires Reaches(env, START, events, st)
    ensures var trades, published := st.world.trades, st.world.log.published;
            && (forall i, j :: 0 <= i < j < |trades| ==>
                 T.Event(trades[i]) != T.Event(trades[j]) && trades[i].id < trades[j].id)
            && (forall i :: 0 <= i < |published| ==> published[i].row in trades)
            && (forall i, j :: 0 <= i < j < |published| ==>
                  !(published[i].topic == published[j].topic && T.Event(published[i].row) == T.Event(published[j].row)))
            && (forall i, j :: 0 <= i < j < |published| && published[i].topic == published[j].topic ==>
                  published[i].row.id < published[j].row.id)
  {
    RunPublished(env, events, st);
    var trades, published := st.world.trades, st.world.log.published;
    forall i, j | 0 <= i < j < |published| && published[i].topic == published[j].topic
      ensures T.Event(published[i].row) != T.Event(published[j].row)
    {
      var p, q := published[i], published[j];
      assert Before(p, q);
      var a :| 0 <= a < |trades| && trades[a] == p.row;
      var b :| 0 <= b < |trades| && trades[b] == q.row;
    }
  }

  /** A stored fill is never lost or altered later in the run. */
  lemma {:induction false} FillsArePersistent(env: Env, events: seq<Event>, n: nat, early: State, late: State)
    requires n <= |events| && Reaches(env, START, events[..n], early) && Reaches(env, START, events, late)
    ensures early.world.trades <= late.world.trades
  {
    if n == |events| {
      assert events[..n] == events;
    } else {
      var m := |events| - 1;
      var before := Run(env, START, events[..m]).value;
      assert events[..m][..n] == events[..n];
      FillsArePersistent(env, events[..m], n, early, before);
      var e := events[m];
      if !e.Filled? && !e.Publish? { OtherPublished(env, before, e); }
    }
  }

  // ---- Fills delivered again ----

  /** Event i delivered a fill the session could resolve and store. */
  ghost predicate Delivers(events: seq<Event>, i: int) {
    0 <= i < |events| && events[i].Filled? && events[i].fill.resolved
  }

  /** What the session knew about the order of the fill when it was delivered. */
  ghost function Knowledge(env: Env, events: seq<Event>, i: int): Attribution
    requires Delivers(events, i)
  {
    var before := Run(env, START, events[..i]);
    if before.None? then Attribution(EMPTY_SESSION, "", None)
    else Attribute(before.value.world, events[i].fill.orderNo, events[i].fill.serverFlag, events[i].found)
  }

  ghost function DeliveredId(env: Env, events: seq<Event>, i: int): string
    requires Delivers(events, i)
  {
    Strip(EventId(env.digest, events[i].fill, Knowledge(env, events, i)))
  }

  ghost predicate Delivered(env: Env, events: seq<Event>, id: string) {
    exists i :: Delivers(events, i) && DeliveredId(env, events, i) == id
  }

  lemma DeliveredBefore(env: Env, events: seq<Event>, i: nat)
    requires i < |events| - 1
    ensures Delivers(events[..|events| - 1], i) == Delivers(events, i)
    ensures Delivers(events, i) ==> DeliveredId(env, events[..|events| - 1], i) == DeliveredId(env, events, i)
  {
    assert events[..|events| - 1][..i] == events[..i];
  }

  lemma DeliveredStep(env: Env, events: seq<Event>, id: string)
    requires events != []
    ensures var n := |events| - 1;
            Delivered(env, events, id) <==>
              Delivered(env, events[..n], id) || (Delivers(events, n) && DeliveredId(env, events, n) == id)
  {
    var n := |events| - 1;
    if Delivered(env, events[..n], id) {
      var i :| Delivers(events[..n], i) && DeliveredId(env, events[..n], i) == id;
      DeliveredBefore(env, events, i);
    }
    if Delivered(env, events, id) {
      var i :| Delivers(events, i) && DeliveredId(env, events, i) == id;
      if i < n { DeliveredBefore(env, events, i); }
    }
  }

  lemma StepKnows(env: Env, st: State, e: Event, id: string)
    requires Enabled(env, st, e)
    ensures T.Known(Step(env, st, e).world.trades, id) <==>
              T.Known(st.world.trades, id)
              || (e.Filled? && e.fill.resolved
                  && id == Strip(EventId(
                             env.digest, e.fill, Attribute(st.world, e.fill.orderNo, e.fill.serverFlag, e.found))))
  {
    if e.Filled? {
      var a := Attribute(st.world, e.fill.orderNo, e.fill.serverFlag, e.found);
      T.RecordKnows(st.world.trades, TradeOf(env.digest, e.fill, a), e.gap, id);
    } else if !e.Publish? {
      OtherPublished(env, st, e);
    }
  }

  /** The table knows exactly the events the run delivered, crashes or not. */
  lemma {:induction false} StoredIsDelivered(env: Env, events: seq<Event>, st: State, id: string)
    requires Reaches(env, START, events, st)
    ensures T.Known(st.world.trades, id) <==> Delivered(env, events, id)
  {
    if events != [] {
      var n := |events| - 1;
      var before := Run(env, START, events[..n]).value;
      StoredIsDelivered(env, events[..n], before, id);
      StepKnows(env, before, events[n], id);
      DeliveredStep(env, events, id);
    }
  }

  /**
   * The same native fill, as two states of knowledge see it: by its MatchNo when
   * it has one, otherwise by all its columns and the order it is attributed to.
   */
  predicate SameFill(f: Fill, a: Attribution, g: Fill, b: Attribution) {
    && f.accountId == g.accountId && f.tradingDay == g.tradingDay && f.exchange == g.exchange && f.tradeId == g.tradeId
    && (f.tradeId == "" ==>
          && f.orderNo == g.orderNo && f.direction == g.direction && f.price == g.price && f.volume == g.volume
          && f.tradeTime == g.tradeTime
          && ClientOrderId(a) == ClientOrderId(b) && TradeSymbol(f, a) == TradeSymbol(g, b))
  }

  lemma IdentityIsSameFill(f: Fill, a: Attribution, g: Fill, b: Attribution)
    ensures FillIdentity(f, a) == FillIdentity(g, b) <==> SameFill(f, a, g, b)
  {
  }

  /** What delivering a fill does: nothing is stored and nothing published exactly when its event is known. */
  lemma FillEffect(env: Env, st: State, f: Fill, found: Option<Key>, gap: nat)
    requires Enabled(env, st, Filled(f, found, gap)) && f.resolved
    ensures var st' := Step(env, st, Filled(f, found, gap));
            var known := T.Known(st.world.trades,
              Strip(EventId(env.digest, f, Attribute(st.world, f.orderNo, f.serverFlag, found))));
            && (st'.world.trades == st.world.trades <==> known)
            && (st'.publishing.None? <==> known)
            && st'.world.log.published == st.world.log.published
  {
  }

  /**
   * A fill with a MatchNo that was delivered anywhere earlier in the run is
   * ignored when it comes again, whatever crashed or was learned in between.
   */
  lemma RedeliveryIgnored(env: Env, events: seq<Event>, st: State, n: nat, found: Option<Key>, gap: nat)
    requires Reaches(env, START, events, st) && Delivers(events, n) && events[n].fill.tradeId != ""
    requires Enabled(env, st, Filled(events[n].fill, found, gap))
    ensures var st' := Step(env, st, Filled(events[n].fill, found, gap));
            st'.world.trades == st.world.trades && st'.publishing.None?
              && st'.world.log.published == st.world.log.published
  {
    var f := events[n].fill;
    var b := Attribute(st.world, f.orderNo, f.serverFlag, found);
    IdentityIsSameFill(f, Knowledge(env, events, n), f, b);
    assert DeliveredId(env, events, n) == Strip(EventId(env.digest, f, b));
    StoredIsDelivered(env, events, st, Strip(EventId(env.digest, f, b)));
    FillEffect(env, st, f, found, gap);
  }

  /** No earlier delivery shares this event id without being the same fill. */
  ghost predicate NoCollision(env: Env, events: seq<Event>, f: Fill, b: Attribution) {
    forall i :: Delivers(events, i) && DeliveredId(env, events, i) == Strip(EventId(env.digest, f, b)) ==>
      FillIdentity(events[i].fill, Knowledge(env, events, i)) == FillIdentity(f, b)
  }

  /**
   * In general a fill is ignored exactly when the run delivered the same fill
   * before, as the session saw it then and sees it now; only the identities at
   * hand must not collide under the digest.
   */
  lemma RedeliveryExactly(env: Env, events: seq<Event>, st: State, f: Fill, found: Option<Key>, gap: nat)
    requires Reaches(env, START, events, st) && Enabled(env, st, Filled(f, found, gap)) && f.resolved
    requires NoCollision(env, events, f, Attribute(st.world, f.orderNo, f.serverFlag, found))
    ensures var st' := Step(env, st, Filled(f, found, gap));
            var b := Attribute(st.world, f.orderNo, f.serverFlag, found);
            st'.world.trades == st.world.trades && st'.publishing.None? <==>
              exists i :: Delivers(events, i) && SameFill(events[i].fill, Knowledge(env, events, i), f, b)
  {
    var b := Attribute(st.world, f.orderNo, f.serverFlag, found);
    var id := Strip(EventId(env.digest, f, b));
    StoredIsDelivered(env, events, st, id);
    FillEffect(env, st, f, found, gap);
    forall i | Delivers(events, i)
      ensures DeliveredId(env, events, i) == id <==> SameFill(events[i].fill, Knowledge(env, events, i), f, b)
    {
      IdentityIsSameFill(events[i].fill, Knowledge(env, events, i), f, b);
    }
  }

  /** How the fill of an unknown order, and of a known one, is seen. */
  function Unattributed(): Attribution {
    Attribution(EMPTY_SESSION, "", None)
  }

  function AttributedAs(n: string, k: Key, symbol: string): Attribution {
    Attribution(EMPTY_SESSION, n, Some(Identity(k, symbol)))
  }

  /** A fill of order `n`, sent with its flag and without a MatchNo. */
  predicate Matchless(env: Env, f: Fill, n: string) {
    f.resolved && f.tradeId == "" && (f.orderNo, f.serverFlag) == env.pair(n)
  }

  lemma TradeDependsOn(digest: FillId -> string, f: Fill, a: Attribution, b: Attribution)
    requires a.native == b.native && a.identity == b.identity
    ensures TradeOf(digest, f, a) == TradeOf(digest, f, b)
  {
  }

  /** The fill comes before the order's number is known: it is stored under no owner and published. */
  lemma FillComesFirst(env: Env, k: Key, symbol: string, n: string, f: Fill) returns (events: seq<Event>, st: State)
    requires Proper(env) && n != "" && Matchless(env, f, n)
    ensures Honestly(env, events, st) && st.up && st.publishing.None?
    ensures st.world.rows == map[k := Record(symbol, n, "", "", Accepted, "")]
    ensures st.world.trades == [T.Row(1, TradeOf(env.digest, f, Unattributed()))]
    ensures st.world.session == Identify(EMPTY_SESSION, n, Identity(k, symbol))
    ensures Delivers(events, |events| - 2) && events[|events| - 2].fill == f
  {
    FirstStart(env);
    var up := START.(up := true);
    events := PlaceAccepted(env, [Restart([])], up, k, symbol, n);
    st := up.(world := Accepting(up.world, k, symbol, n));
    var e := Filled(f, None, 0);
    ExtendHonestly(env, events, st, e);
    var a := Attribute(st.world, f.orderNo, f.serverFlag, None);
    TradeDependsOn(env.digest, f, a, Unattributed());
    var stored := Step(env, st, e);
    ExtendHonestly(env, events + [e], stored, Publish);
    events, st := events + [e] + [Publish], Step(env, stored, Publish);
  }

  /**
   * A fill without MatchNo delivered once before and once after the order's
   * number arrived is stored twice, for every order and fill whose two
   * identities the digest tells apart.
   */
  lemma StoredTwice(env: Env, k: Key, symbol: string, n: string, f: Fill) returns (events: seq<Event>, st: State)
    requires Proper(env) && n != "" && Matchless(env, f, n)
    requires Strip(EventId(env.digest, f, Unattributed())) != Strip(EventId(env.digest, f, AttributedAs(n, k, symbol)))
    ensures Honestly(env, events, st)
    ensures st.world.trades == [T.Row(1, TradeOf(env.digest, f, Unattributed())),
            T.Row(2, TradeOf(env.digest, f, AttributedAs(n, k, symbol)))]
    ensures st.publishing == Some(Publishing(st.world.trades[1], Topics(f.accountId, Some(Identity(k, symbol)))))
  {
    events, st := FillComesFirst(env, k, symbol, n, f);
    var u := OrderChanged(OrderUpdate(n, f.orderNo, f.serverFlag, Submitted, true), Some(k));
    ExtendHonestly(env, events, st, u);
    events, st := events + [u], Step(env, st, u);
    events, st := FillComesAgain(env, events, st, k, symbol, n, f);
  }

  lemma FillComesAgain(env: Env, events: seq<Event>, st: State, k: Key, symbol: string, n: string, f: Fill)
      returns (events': seq<Event>, st': State)
    requires Proper(env) && n != "" && Matchless(env, f, n) && Honestly(env, events, st) && st.up && st.publishing.None?
    requires Strip(EventId(env.digest, f, Unattributed())) != Strip(EventId(env.digest, f, AttributedAs(n, k, symbol)))
    requires k in st.world.rows && st.world.rows[k].orderNo == f.orderNo && st.world.rows[k].serverFlag == f.serverFlag
    requires st.world.trades == [T.Row(1, TradeOf(env.digest, f, Unattributed()))]
    requires var s := st.world.session;
             && (f.orderNo, f.serverFlag) in s.nativeByOrderKey && s.nativeByOrderKey[(f.orderNo, f.serverFlag)] == n
             && n in s.identityByNative && s.identityByNative[n] == Identity(k, symbol)
    ensures Honestly(env, events', st')
    ensures st'.world.trades == st.world.trades + [T.Row(2, TradeOf(env.digest, f, AttributedAs(n, k, symbol)))]
    ensures st'.publishing == Some(Publishing(st'.world.trades[1], Topics(f.accountId, Some(Identity(k, symbol)))))
  {
    var e := Filled(f, Some(k), 0);
    ExtendHonestly(env, events, st, e);
    events', st' := events + [e], Step(env, st, e);
    TradeDependsOn(env.digest, f, Attribute(st.world, f.orderNo, f.serverFlag, Some(k)), AttributedAs(n, k, symbol));
  }

  // ---- Whether a stored fill was published ----

  ghost predicate Out(w: World, row: T.Row, topic: string) {
    Publication(topic, row) in w.log.published
  }

  ghost predicate AllOut(w: World, row: T.Row, topics: seq<string>) {
    forall t :: t in topics ==> Out(w, row, t)
  }

  predicate Under(st: State, row: T.Row) {
    st.publishing.Some? && st.publishing.value.row == row
  }

  /** The first `d` topics are served and the others wait. */
  ghost predicate Halfway(st: State, row: T.Row, topics: seq<string>, d: nat) {
    && d < |topics| && st.publishing == Some(Publishing(row, topics[d..]))
    && (forall i :: 0 <= i < d ==> Out(st.world, row, topics[i]))
    && forall i :: d <= i < |topics| ==> !Out(st.world, row, topics[i])
  }

  /** What became of a stored row: cut off by a crash, in progress, or on all its topics. */
  ghost predicate Fate(st: State, row: T.Row, topics: seq<string>, cut: bool) {
    && row in st.world.trades
    && (if cut then !Under(st, row) && !AllOut(st.world, row, topics)
        else if Under(st, row) then exists d :: Halfway(st, row, topics, d)
        else AllOut(st.world, row, topics))
  }

  lemma PublishFate(st: State, row: T.Row, topics: seq<string>, cut: bool)
    requires NoDup(topics) && Fate(st, row, topics, cut) && st.publishing.Some? && st.publishing.value.topics != []
    ensures Fate(Publishes(st), row, topics, cut)
  {
    var st', p := Publishes(st), st.publishing.value;
    var added := Publication(p.topics[0], p.row);
    assert st'.world.log.published == st.world.log.published + [added];
    assert forall t :: Out(st'.world, row, t) <==> Out(st.world, row, t) || (p.row == row && t == p.topics[0]);
    if !cut && Under(st, row) {
      var d: nat :| Halfway(st, row, topics, d);
      NextTopic(st, st', row, topics, d);
    }
  }

  function Publishes(st: State): State
    requires st.publishing.Some?
  {
    var (w, p) := PublishNext(st.world, st.publishing.value);
    st.(world := w, publishing := p)
  }

  lemma NextTopic(st: State, st': State, row: T.Row, topics: seq<string>, d: nat)
    requires NoDup(topics) && Halfway(st, row, topics, d) && st' == Publishes(st)
    requires forall t :: Out(st'.world, row, t) <==> Out(st.world, row, t) || t == topics[d]
    ensures if d + 1 < |topics| then Halfway(st', row, topics, d + 1)
            else !Under(st', row) && AllOut(st'.world, row, topics)
  {
    assert topics[d..][1..] == topics[d + 1..];
    if d + 1 == |topics| {
      forall t | t in topics ensures Out(st'.world, row, t) {
        var i :| 0 <= i < |topics| && topics[i] == t;
      }
    }
  }

  lemma NewRowFate(env: Env, st: State, f: Fill, found: Option<Key>, gap: nat, row: T.Row, topics: seq<string>,
      cut: bool)
    requires Backed(st.world) && Fate(st, row, topics, cut) && Enabled(env, st, Filled(f, found, gap))
    ensures Fate(Step(env, st, Filled(f, found, gap)), row, topics, cut)
  {
    var st' := Step(env, st, Filled(f, found, gap));
    var a := Attribute(st.world, f.orderNo, f.serverFlag, found);
    assert st'.world.log.published == st.world.log.published && st.world.trades <= st'.world.trades;
    if st'.publishing.Some? {
      assert st'.publishing.value.row.id == T.LastId(st.world.trades) + 1 + gap;
      var i :| 0 <= i < |st.world.trades| && st.world.trades[i] == row;
      assert row.id <= T.LastId(st.world.trades);
    }
  }

  lemma FateStep(env: Env, st: State, e: Event, row: T.Row, topics: seq<string>, cut: bool)
    requires Published(st) && NoDup(topics) && Fate(st, row, topics, cut) && Enabled(env, st, e)
    ensures Fate(Step(env, st, e), row, topics, cut || (e.Crash? && Under(st, row)))
  {
    match e
    case Publish => PublishFate(st, row, topics, cut);
    case Filled(f, found, gap) => NewRowFate(env, st, f, found, gap, row, topics, cut);
    case _ =>
      OtherPublished(env, st, e);
      SamePublishedFate(st, Step(env, st, e), e.Crash?, row, topics, cut);
  }

  lemma SamePublishedFate(st: State, st': State, crash: bool, row: T.Row, topics: seq<string>, cut: bool)
    requires Fate(st, row, topics, cut)
    requires st'.world.trades == st.world.trades && st'.world.log.published == st.world.log.published
    requires st'.publishing == if crash then None else st.publishing
    ensures Fate(st', row, topics, cut || (crash && Under(st, row)))
  {
    assert forall t :: Out(st'.world, row, t) == Out(st.world, row, t);
    if !cut && Under(st, row) {
      var d: nat :| Halfway(st, row, topics, d);
      assert topics[d] in topics && !Out(st'.world, row, topics[d]);
      assert !crash ==> Halfway(st', row, topics, d);
    }
  }

  /** A crash after event n found the row being published. */
  ghost predicate Cut(env: Env, events: seq<Event>, n: nat, row: T.Row) {
    exists c :: n < c < |events| && CutAt(env, events, c, row)
  }

  ghost predicate CutAt(env: Env, events: seq<Event>, c: nat, row: T.Row)
    requires c < |events|
  {
    events[c].Crash? && var before := Run(env, START, events[..c]); before.Some? && Under(before.value, row)
  }

  lemma CutStep(env: Env, events: seq<Event>, n: nat, row: T.Row)
    requires n < |events| - 1
    ensures Cut(env, events, n, row) <==>
              Cut(env, events[..|events| - 1], n, row) || CutAt(env, events, |events| - 1, row)
  {
    var m := |events| - 1;
    forall c | n < c < m ensures CutAt(env, events, c, row) <==> CutAt(env, events[..m], c, row) {
      assert events[..m][..c] == events[..c];
    }
  }

  /** Event n stored this row and began to publish it. */
  ghost predicate Begins(env: Env, events: seq<Event>, n: nat, p: Publishing) {
    && n < |events| && events[n].Filled?
    && var after := Run(env, START, events[..n + 1]);
       after.Some? && after.value.publishing == Some(p)
  }

  lemma {:induction false} FateRuns(env: Env, events: seq<Event>, n: nat, p: Publishing, st: State)
    requires Reaches(env, START, events, st) && Begins(env, events, n, p)
    ensures NoDup(p.topics) && Fate(st, p.row, p.topics, Cut(env, events, n, p.row))
  {
    var m := |events| - 1;
    if n == m {
      assert events[..n + 1] == events;
      RunPublished(env, events, st);
      Begun(st, p);
    } else {
      var before := Run(env, START, events[..m]).value;
      BeganEarlier(env, events, n, p);
      FateRuns(env, events[..m], n, p, before);
      FateNext(env, events, n, p, before);
    }
  }

  lemma BeganEarlier(env: Env, events: seq<Event>, n: nat, p: Publishing)
    requires n < |events| - 1 && Begins(env, events, n, p)
    ensures Begins(env, events[..|events| - 1], n, p)
  {
    assert events[..|events| - 1][..n + 1] == events[..n + 1];
  }

  lemma FateNext(env: Env, events: seq<Event>, n: nat, p: Publishing, before: State)
    requires n < |events| - 1
    requires var m := |events| - 1;
             && Reaches(env, START, events[..m], before) && Enabled(env, before, events[m])
             && NoDup(p.topics) && Fate(before, p.row, p.topics, Cut(env, events[..m], n, p.row))
    ensures Fate(Step(env, before, events[|events| - 1]), p.row, p.topics, Cut(env, events, n, p.row))
  {
    var m := |events| - 1;
    RunPublished(env, events[..m], before);
    FateStep(env, before, events[m], p.row, p.topics, Cut(env, events[..m], n, p.row));
    CutStep(env, events, n, p.row);
  }

  lemma StillUnsent(st: State, p: Publishing, i: nat)
    requires Published(st) && st.publishing == Some(p) && i < |p.topics|
    ensures !Out(st.world, p.row, p.topics[i])
  {
    var sent := st.world.log.published;
    assert p.topics[i] in p.topics;
    forall j | 0 <= j < |sent| ensures sent[j] != Publication(p.topics[i], p.row) {
      assert Before(sent[j], Publication(p.topics[i], p.row));
    }
  }

  lemma Begun(st: State, p: Publishing)
    requires Published(st) && st.publishing == Some(p)
    ensures NoDup(p.topics) && Fate(st, p.row, p.topics, false)
  {
    assert p.topics[0..] == p.topics;
    forall i | 0 <= i < |p.topics| ensures !Out(st.world, p.row, p.topics[i]) {
      StillUnsent(st, p, i);
    }
    assert Halfway(st, p.row, p.topics, 0);
  }

  lemma BeginsEarlier(env: Env, events: seq<Event>, n: nat, p: Publishing)
    requires events != [] && Begins(env, events[..|events| - 1], n, p)
    ensures Begins(env, events, n, p)
  {
    assert events[..|events| - 1][..n + 1] == events[..n + 1];
  }

  /** Every stored row was stored by some fill of the run, which began to publish it on the fill's topics. */
  lemma {:induction false} RowBegins(env: Env, events: seq<Event>, st: State, row: T.Row)
      returns (n: nat, p: Publishing)
    requires Reaches(env, START, events, st) && row in st.world.trades
    ensures Begins(env, events, n, p) && p.row == row && Delivers(events, n)
    ensures p.topics == Topics(events[n].fill.accountId, Knowledge(env, events, n).identity)
  {
    var m := |events| - 1;
    var e, before := events[m], Run(env, START, events[..m]).value;
    if row in before.world.trades {
      n, p := RowBegins(env, events[..m], before, row);
      BeginsEarlier(env, events, n, p);
      assert events[..m][..n] == events[..n];
    } else {
      if !e.Filled? && !e.Publish? { OtherPublished(env, before, e); }
      n, p := m, st.publishing.value;
      assert events[..m + 1] == events;
    }
  }

  /**
   * Every stored fill was published on all its topics, or is being published,
   * exactly when no crash came while it was.
   */
  lemma PublishedExactly(env: Env, events: seq<Event>, st: State, row: T.Row) returns (n: nat, topics: seq<string>)
    requires Reaches(env, START, events, st) && row in st.world.trades
    ensures Delivers(events, n) && topics == Topics(events[n].fill.accountId, Knowledge(env, events, n).identity)
    ensures Begins(env, events, n, Publishing(row, topics))
    ensures AllOut(st.world, row, topics) || Under(st, row) <==> !Cut(env, events, n, row)
  {
    var p;
    n, p := RowBegins(env, events, st, row);
    topics := p.topics;
    FateRuns(env, events, n, p, st);
    if !Cut(env, events, n, row) && Under(st, row) {
      var d: nat :| Halfway(st, row, topics, d);
    }
  }

  /**
   * A publication lost in a crash stays lost: for every fill there is a run in
   * which it is stored, never published, and ignored when it comes again.
   */
  lemma CrashLosesPublication(env: Env, f: Fill, gap: nat) returns (events: seq<Event>, st: State)
    requires f.resolved
    ensures Honestly(env, events, st) && st.up && st.publishing.None? && st.world.log.published == []
    ensures st.world.trades == [T.Row(1, TradeOf(env.digest, f, Unattributed()))]
    ensures Enabled(env, st, Filled(f, None, gap))
    ensures var st' := Step(env, st, Filled(f, None, gap)); st'.world.trades == st.world.trades && st'.publishing.None?
  {
    FirstStart(env);
    events, st := [Restart([])], START.(up := true);
    ExtendHonestly(env, events, st, Filled(f, None, 0));
    TradeDependsOn(env.digest, f, Attribute(st.world, f.orderNo, f.serverFlag, None), Unattributed());
    events, st := events + [Filled(f, None, 0)], Step(env, st, Filled(f, None, 0));
    ExtendHonestly(env, events, st, Crash);
    events, st := events + [Crash], Step(env, st, Crash);
    ExtendHonestly(env, events, st, Restart([]));
    events, st := events + [Restart([])], Step(env, st, Restart([]));
    TradeDependsOn(env.digest, f, Attribute(st.world, f.orderNo, f.serverFlag, None), Unattributed());
    assert T.Event(st.world.trades[0]) == Strip(EventId(env.digest, f, Unattributed()));
  }
}
