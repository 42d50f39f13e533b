/**
 * The order and fill protocol as a transition system: a persistent store, a
 * volatile session, `place_order` calls in flight with program counters, and a
 * history of what was sent to the exchange and published. A crash may happen
 * between any two steps.
 */
module OrderLifecycle {
  import opened Prelude
  import opened Text
  import opened OrderStore
  import T = TradeStore

  // ---- The volatile session ----

  datatype Identity = Identity(key: Key, symbol: string)

  datatype Session = Session(
    identityByNative: map<string, Identity>,
    nativeByIdentity: map<Key, string>,
    orderNoByNative: map<string, string>,
    nativeByOrderKey: map<(string, string), string>,
    serverFlagByNative: map<string, string>,
    pendingCancels: set<string>)

  const EMPTY_SESSION := Session(map[], map[], map[], map[], map[], {})

  function Identify(s: Session, native: string, id: Identity): Session {
    s.(identityByNative := s.identityByNative[native := id],
       nativeByIdentity := s.nativeByIdentity[id.key := native])
  }

  function Learn(s: Session, native: string, orderNo: string, serverFlag: string): Session {
    s.(orderNoByNative := s.orderNoByNative[native := orderNo],
       nativeByOrderKey := s.nativeByOrderKey[(orderNo, serverFlag) := native],
       serverFlagByNative := s.serverFlagByNative[native := serverFlag])
  }

  /** `_hydrate_record`: what a stored order puts into the indexes. */
  function Hydrate(s: Session, k: Key, r: Record): Session {
    var named := if r.native == "" then s else Identify(s, r.native, Identity(k, r.symbol));
    if r.native == "" || r.orderNo == "" then named else Learn(named, r.native, r.orderNo, r.serverFlag)
  }

  /** `_restore_order_mappings` over the store's listing. */
  function HydrateAll(order: seq<Key>, rows: map<Key, Record>): Session
    requires forall k :: k in order ==> k in rows
  {
    if order == [] then EMPTY_SESSION
    else
      var n := |order| - 1;
      Hydrate(HydrateAll(order[..n], rows), order[n], rows[order[n]])
  }

  // ---- History and world ----

  /** `parked`: the call was deferred until the order number arrived; `session`: crashes before it was sent. */
  datatype CancelCall = CancelCall(native: string, orderNo: string, serverFlag: string, parked: bool, session: nat)

  datatype Publication = Publication(topic: string, row: T.Row)

  datatype Reply =
    | Placed(key: Key, native: string)
    | Duplicate(key: Key, native: string, recoveryRequired: bool, status: Status, message: string)
    | Refusal(key: Key, message: string)

  /**
   * `inserts`: native submissions in order; `issued`: native ids handed out;
   * `asked`: keys whose cancellation a client requested; `cancels`: native
   * cancels; `crashes`: how often the process crashed, which numbers its
   * sessions; `deferred`: session and native id of every cancel ever parked.
   */
  datatype Log = Log(
    inserts: seq<Key>, issued: set<string>, replies: seq<Reply>,
    asked: set<Key>, cancels: seq<CancelCall>, crashes: nat, deferred: set<(nat, string)>,
    published: seq<Publication>)

  datatype World = World(rows: map<Key, Record>, trades: seq<T.Row>, session: Session, log: Log)

  // ---- place_order, one store or native call at a time ----

  datatype Pc =
    | Looking | Reserving | Submitting
    | Failing(message: string) | Recording(native: string) | Installing(native: string)

  datatype Call = Call(key: Key, symbol: string, pc: Pc)

  datatype InsertOutcome = Raised(message: string) | Answered(errorId: int, orderId: string)

  function Refused(o: InsertOutcome): Option<string> {
    match o
    case Raised(m) => Some(m)
    case Answered(e, id) =>
      if e != 0 then Some("TAP insertOrder failed: " + IntText(e))
      else if id == "" then Some("TAP insertOrder returned an empty ClientOrderNo")
      else None
  }

  function DuplicateOf(k: Key, r: Record): Reply {
    Duplicate(k, r.native, r.native == "", r.status, r.message)
  }

  function Replied(w: World, r: Reply): World {
    w.(log := w.log.(replies := w.log.replies + [r]))
  }

  function PlaceStep(w: World, c: Call, o: InsertOutcome): (World, Option<Call>)
  {
    match c.pc
    case Looking =>
      if c.key !in w.rows then (w, Some(c.(pc := Reserving)))
      else
        var r := w.rows[c.key];
        var s := if r.native == "" then w.session else Hydrate(w.session, c.key, r);
        (Replied(w.(session := s), DuplicateOf(c.key, r)), None)
    case Reserving =>
      if c.key in w.rows then (Replied(w, DuplicateOf(c.key, w.rows[c.key])), None)
      else (w.(rows := w.rows[c.key := NewRecord(c.symbol)]), Some(c.(pc := Submitting)))
    case Submitting =>
      var sent := w.log.(inserts := w.log.inserts + [c.key]);
      (match Refused(o)
       case Some(m) => (w.(log := sent), Some(c.(pc := Failing(m))))
       case None => (w.(log := sent.(issued := sent.issued + {o.orderId})), Some(c.(pc := Recording(o.orderId)))))
    case Failing(m) =>
      if c.key !in w.rows then (w, None)
      else
        var r := w.rows[c.key].(status := SubmitFailed, message := m);
        (Replied(w.(rows := w.rows[c.key := r]), Refusal(c.key, m)), None)
    case Recording(n) =>
      if c.key !in w.rows then (w, None)
      else
        var r := w.rows[c.key].(native := n, status := Accepted);
        (w.(rows := w.rows[c.key := r]), Some(c.(pc := Installing(n))))
    case Installing(n) =>
      (Replied(w.(session := Identify(w.session, n, Identity(c.key, c.symbol))), Placed(c.key, n)), None)
  }

  function Remaining(pc: Pc): nat {
    match pc
    case Looking => 4
    case Reserving => 3
    case Submitting => 2
    case Failing(_) => 1
    case Recording(_) => 1
    case Installing(_) => 0
  }

  /** A call run to its end with nothing in between: the sequential `place_order`. */
  function RunCall(w: World, c: Call, o: InsertOutcome): World
    decreases Remaining(c.pc)
  {
    var (w', next) := PlaceStep(w, c, o);
    if next.None? then w' else RunCall(w', next.value, o)
  }

  // ---- Cancels and order updates ----

  /** `_send_cancel` for an order whose number is known. */
  function SendCancel(w: World, native: string, parked: bool): World
    requires native in w.session.orderNoByNative && native in w.session.serverFlagByNative
  {
    var call := CancelCall(native, w.session.orderNoByNative[native], w.session.serverFlagByNative[native], parked,
      w.log.crashes);
    w.(log := w.log.(cancels := w.log.cancels + [call]))
  }

  datatype CancelReply = Unavailable | CancelPending | CancelSent

  function CancelTarget(w: World, k: Key): (Session, string) {
    if k in w.session.nativeByIdentity && w.session.nativeByIdentity[k] != "" then
      (w.session, w.session.nativeByIdentity[k])
    else if k in w.rows then (Hydrate(w.session, k, w.rows[k]), w.rows[k].native)
    else (w.session, "")
  }

  function CancelOrder(w: World, k: Key): (World, CancelReply) {
    var (s, n) := CancelTarget(w, k);
    if n == "" then (w.(session := s), Unavailable)
    else
      var log := w.log.(asked := w.log.asked + {k});
      if n !in s.orderNoByNative then
        (w.(session := s.(pendingCancels := s.pendingCancels + {n}),
            log := log.(deferred := log.deferred + {(log.crashes, n)})), CancelPending)
      else if n !in s.serverFlagByNative then (w.(session := s, log := log), CancelSent)
      else (SendCancel(w.(session := s, log := log), n, false), CancelSent)
  }

  /** `resolved`: the update names a known contract and side, and the store does not raise on it. */
  datatype OrderUpdate = OrderUpdate(native: string, orderNo: string, serverFlag: string, status: Status,
      resolved: bool)

  /** What a store may answer: some record that is hit, or none if none is. */
  ghost predicate Answers(rows: map<Key, Record>, p: Probe, found: Option<Key>) {
    if found.Some? then found.value in rows && Hits(rows[found.value], p)
    else forall k :: k in rows ==> !Hits(rows[k], p)
  }

  function Indexed(w: World, u: OrderUpdate, found: Option<Key>): Session {
    var s :=
      if u.native != "" && u.orderNo != "" then Learn(w.session, u.native, u.orderNo, u.serverFlag) else w.session;
    if u.native != "" && u.native !in s.identityByNative && found.Some? && found.value in w.rows
    then Hydrate(s, found.value, w.rows[found.value]) else s
  }

  function UpdateOrder(w: World, u: OrderUpdate, found: Option<Key>): World {
    var s := Indexed(w, u, found);
    if !u.resolved then w.(session := s)
    else
      var rows := if u.native != "" && found.Some? && found.value in w.rows
                  then w.rows[found.value := Updated(w.rows[found.value], u.orderNo, u.serverFlag, u.status)]
                  else w.rows;
      var w' := w.(session := s, rows := rows);
      if u.native in s.pendingCancels && u.orderNo != "" && u.native in s.orderNoByNative
        && u.native in s.serverFlagByNative
      then SendCancel(w'.(session := s.(pendingCancels := s.pendingCancels - {u.native})), u.native, true)
      else w'
  }

  // ---- Fills ----

  datatype Fallback = Fallback(orderId: string, clientOrderId: string, symbol: string, direction: string,
                               price: real, volume: int, tradeTime: string)

  datatype FillId = FillId(accountId: string, tradingDay: string, exchange: string, tradeId: string,
      fallback: Option<Fallback>)

  /**
   * `pair` is the exchange's (OrderNo, ServerFlag) of each native id; `digest`
   * stands for the canonical JSON text and its hash.
   */
  datatype Env = Env(pair: string -> (string, string), digest: FillId -> string)

  ghost predicate Proper(env: Env) {
    && (forall n :: env.pair(n).0 != "")
    && forall n, m :: env.pair(n) == env.pair(m) ==> n == m
  }

  /**
   * A native fill, its account filled in. `resolved`: it names a known contract
   * and side, and the store does not raise on it.
   */
  datatype Fill = Fill(
    orderNo: string, serverFlag: string, accountId: string, tradingDay: string, exchange: string, tradeId: string,
    symbol: string, direction: string, price: real, volume: int, tradeTime: string, resolved: bool)

  datatype Attribution = Attribution(session: Session, native: string, identity: Option<Identity>)

  function Attribute(w: World, orderNo: string, serverFlag: string, found: Option<Key>): Attribution {
    var byKey := w.session.nativeByOrderKey;
    var n := if (orderNo, serverFlag) in byKey then byKey[(orderNo, serverFlag)] else "";
    if n == "" && orderNo != "" then
      if found.Some? && found.value in w.rows then
        var r := w.rows[found.value];
        Attribution(Hydrate(w.session, found.value, r), r.native, Some(Identity(found.value, r.symbol)))
      else Attribution(w.session, "", None)
    else
      var byNative := w.session.identityByNative;
      Attribution(w.session, n, if n in byNative then Some(byNative[n]) else None)
  }

  function ClientOrderId(a: Attribution): string {
    if a.identity.Some? then a.identity.value.key.clientOrderId else a.native
  }

  function TradeSymbol(f: Fill, a: Attribution): string {
    if a.identity.Some? then a.identity.value.symbol else f.symbol
  }

  function FillIdentity(f: Fill, a: Attribution): FillId {
    FillId(f.accountId, f.tradingDay, f.exchange, f.tradeId,
           if f.tradeId != "" then None
           else Some(Fallback(
                       f.orderNo, ClientOrderId(a), TradeSymbol(f, a), f.direction, f.price, f.volume, f.tradeTime)))
  }

  function EventId(digest: FillId -> string, f: Fill, a: Attribution): string {
    "trade:tap:" + digest(FillIdentity(f, a))
  }

  function OwnerOf(a: Attribution): Owner {
    if a.identity.Some? then Owner(a.identity.value.key.clientId, a.identity.value.key.strategyId) else Owner("", "")
  }

  function TradeOf(digest: FillId -> string, f: Fill, a: Attribution): T.Trade {
    T.Trade(EventId(digest, f, a), f.accountId, OwnerOf(a), ClientOrderId(a), f.orderNo, f.tradeId,
            TradeSymbol(f, a), f.exchange, f.direction, f.price, f.volume, f.tradeTime, f.tradingDay)
  }

  function Topics(accountId: string, identity: Option<Identity>): seq<string> {
    var base := "trades." + accountId;
    [base] + if identity.Some? then [base + "." + identity.value.key.strategyId] else []
  }

  /** A recorded fill and the topics it still has to be published on. */
  datatype Publishing = Publishing(row: T.Row, topics: seq<string>)

  ghost function RecordFill(digest: FillId -> string, w: World, f: Fill, found: Option<Key>, gap: nat)
    : (World, Option<Publishing>)
  {
    var a := Attribute(w, f.orderNo, f.serverFlag, found);
    var w' := w.(session := a.session);
    if !f.resolved then (w', None)
    else
      var trade := TradeOf(digest, f, a);
      var (trades, cursor) := T.Record(w.trades, trade, gap);
      (w'.(trades := trades),
       if cursor.None? then None else Some(Publishing(T.Row(cursor.value, trade), Topics(f.accountId, a.identity))))
  }

  function PublishNext(w: World, p: Publishing): (World, Option<Publishing>) {
    if p.topics == [] then (w, None)
    else (w.(log := w.log.(published := w.log.published + [Publication(p.topics[0], p.row)])),
          if |p.topics| == 1 then None else Some(p.(topics := p.topics[1..])))
  }

  /** Publication on all remaining topics with nothing in between. */
  function PublishAll(w: World, p: Option<Publishing>): World
    decreases if p.None? then 0 else 1 + |p.value.topics|
  {
    if p.None? then w
    else
      var (w', p') := PublishNext(w, p.value);
      PublishAll(w', p')
  }

  // ---- The transition system ----

  /** `up` is false between a crash and the next restart. */
  datatype State = State(world: World, up: bool, calls: map<nat, Call>, publishing: Option<Publishing>)

  /**
   * `Abort`: an exception ends the call between two of its lines, such as the
   * unique index refusing a native id in `set_native`.
   */
  datatype Event =
    | BeginPlace(id: nat, key: Key, symbol: string)
    | Place(id: nat, outcome: InsertOutcome)
    | Abort(id: nat)
    | OrderChanged(update: OrderUpdate, found: Option<Key>)
    | Cancel(key: Key)
    | Filled(fill: Fill, found: Option<Key>, gap: nat)
    | Publish
    | Crash
    | Restart(order: seq<Key>)

  const START := State(
    World(map[], [], EMPTY_SESSION, Log([], {}, [], {}, [], 0, {}, [])), false, map[], None)

  /** Statuses an order update can carry; the other three are the store's own. */
  predicate Reported(s: Status) {
    !s.PendingSubmit? && !s.SubmitFailed? && !s.Accepted?
  }

  /** What the program admits: a lookup answers with a record it hits, and callbacks come one at a time. */
  ghost predicate Enabled(env: Env, st: State, e: Event) {
    match e
    case BeginPlace(id, _, _) => st.up && id !in st.calls
    case Place(id, o) => st.up && id in st.calls
    case Abort(id) => st.up && id in st.calls
    case OrderChanged(u, found) =>
      && st.up && Reported(u.status)
      && (u.native != "" ==> Answers(st.world.rows, ByNative(u.native), found))
    case Cancel(_) => st.up
    case Filled(f, found, _) =>
      && st.up && st.publishing.None?
      && (f.orderNo != "" ==> Answers(st.world.rows, ByOrderNo(f.orderNo, f.serverFlag), found))
    case Publish => st.up && st.publishing.Some?
    case Crash => st.up
    case Restart(order) => !st.up && Enumerates(order, st.world.rows.Keys)
  }

  ghost function Step(env: Env, st: State, e: Event): State
    requires Enabled(env, st, e)
  {
    match e
    case BeginPlace(id, key, symbol) => st.(calls := st.calls[id := Call(key, symbol, Looking)])
    case Place(id, o) =>
      var (w, next) := PlaceStep(st.world, st.calls[id], o);
      st.(world := w, calls := if next.Some? then st.calls[id := next.value] else st.calls - {id})
    case Abort(id) => st.(calls := st.calls - {id})
    case OrderChanged(u, found) => st.(world := UpdateOrder(st.world, u, found))
    case Cancel(k) => st.(world := CancelOrder(st.world, k).0)
    case Filled(f, found, gap) =>
      var (w, p) := RecordFill(env.digest, st.world, f, found, gap);
      st.(world := w, publishing := p)
    case Publish =>
      var (w, p) := PublishNext(st.world, st.publishing.value);
      st.(world := w, publishing := p)
    case Crash =>
      var log := st.world.log;
      State(st.world.(session := EMPTY_SESSION, log := log.(crashes := log.crashes + 1)), false, map[], None)
    case Restart(order) =>
      st.(world := st.world.(session := HydrateAll(order, st.world.rows)), up := true)
  }

  /** The state after a list of events, if each was enabled. */
  ghost function Run(env: Env, st: State, events: seq<Event>): Option<State>
    decreases |events|
  {
    if events == [] then Some(st)
    else
      var before := Run(env, st, events[..|events| - 1]);
      var e := events[|events| - 1];
      if before.Some? && Enabled(env, before.value, e) then Some(Step(env, before.value, e)) else None
  }

  ghost predicate Reaches(env: Env, st: State, events: seq<Event>, st': State) {
    Run(env, st, events) == Some(st')
  }

  // ---- What the exchange is trusted with ----

  /** A native id it hands out is new. */
  predicate NewId(st: State, e: Event) {
    e.Place? && e.id in st.calls && st.calls[e.id].pc.Submitting? && Refused(e.outcome).None? ==>
      e.outcome.orderId !in st.world.log.issued
  }

  /** An update carries its order's pair or neither field. */
  predicate HoldsPair(env: Env, e: Event) {
    e.OrderChanged? ==>
      var u := e.update;
      u.native == "" || (u.orderNo, u.serverFlag) == ("", "") || (u.orderNo, u.serverFlag) == env.pair(u.native)
  }

  predicate Honest(env: Env, st: State, e: Event) {
    NewId(st, e) && HoldsPair(env, e)
  }

  ghost predicate NewIds(env: Env, events: seq<Event>) {
    forall i :: 0 <= i < |events| && Run(env, START, events[..i]).Some? ==>
      NewId(Run(env, START, events[..i]).value, events[i])
  }

  /** Only the order indexes, cancels and the attribution of fills depend on this. */
  ghost predicate HonestRun(env: Env, events: seq<Event>) {
    NewIds(env, events) && forall i :: 0 <= i < |events| ==> HoldsPair(env, events[i])
  }

  /** An enabled step of an honest exchange, and a run of such steps. */
  ghost predicate Expected(env: Env, st: State, e: Event) {
    Enabled(env, st, e) && Honest(env, st, e)
  }

  ghost predicate Honestly(env: Env, events: seq<Event>, st: State) {
    Reaches(env, START, events, st) && HonestRun(env, events)
  }

  lemma NewIdsPrefix(env: Env, events: seq<Event>, n: nat)
    requires NewIds(env, events) && n <= |events|
    ensures NewIds(env, events[..n])
  {
    forall i | 0 <= i < n && Run(env, START, events[..n][..i]).Some?
      ensures NewId(Run(env, START, events[..n][..i]).value, events[..n][i])
    {
      assert events[..n][..i] == events[..i];
    }
  }

  lemma HonestPrefix(env: Env, events: seq<Event>, n: nat)
    requires HonestRun(env, events) && n <= |events|
    ensures HonestRun(env, events[..n])
  {
    NewIdsPrefix(env, events, n);
  }

  /** The last step of an honest run was honest. */
  lemma HonestLast(env: Env, events: seq<Event>, before: State)
    requires HonestRun(env, events) && events != [] && Reaches(env, START, events[..|events| - 1], before)
    ensures HonestRun(env, events[..|events| - 1]) && Honest(env, before, events[|events| - 1])
  {
    HonestPrefix(env, events, |events| - 1);
  }

  /** The last step of an honest run, taken apart. */
  lemma HonestStep(env: Env, events: seq<Event>, st: State) returns (before: State)
    requires Honestly(env, events, st) && events != []
    ensures Honestly(env, events[..|events| - 1], before) && Expected(env, before, events[|events| - 1])
    ensures st == Step(env, before, events[|events| - 1])
  {
    before := Run(env, START, events[..|events| - 1]).value;
    HonestLast(env, events, before);
  }

  lemma ExtendHonestly(env: Env, events: seq<Event>, st: State, e: Event)
    requires Honestly(env, events, st) && Expected(env, st, e)
    ensures Honestly(env, events + [e], Step(env, st, e))
  {
    Extend(env, events, st, e);
    var after := events + [e];
    forall i | 0 <= i < |after| && Run(env, START, after[..i]).Some?
      ensures NewId(Run(env, START, after[..i]).value, after[i])
    {
      assert after[..i] == events[..i];
      if i == |events| { assert events[..i] == events; }
    }
  }

  lemma Extend(env: Env, events: seq<Event>, st: State, e: Event)
    requires Reaches(env, START, events, st) && Enabled(env, st, e)
    ensures Reaches(env, START, events + [e], Step(env, st, e))
  {
    assert (events + [e])[..|events|] == events;
  }

  /** The second list continues the first with steps of `place_order` only. */
  ghost predicate Placing(events: seq<Event>, events': seq<Event>) {
    events <= events' && forall i :: |events| <= i < |events'| ==> events'[i].BeginPlace? || events'[i].Place?
  }

  /** Running a call to its end is a run of the transition system. */
  lemma {:induction false} CallRuns(env: Env, events: seq<Event>, st: State, id: nat, o: InsertOutcome)
      returns (events': seq<Event>)
    requires Reaches(env, START, events, st) && st.up && id in st.calls
    ensures Reaches(env, START, events', st.(world := RunCall(st.world, st.calls[id], o), calls := st.calls - {id}))
    ensures Placing(events, events')
    ensures HonestRun(env, events)
            && (Remaining(st.calls[id].pc) >= 2 ==> o.Raised? || o.orderId !in st.world.log.issued) ==>
              HonestRun(env, events')
    decreases Remaining(st.calls[id].pc)
  {
    var e := Place(id, o);
    var next := PlaceStep(st.world, st.calls[id], o).1;
    Extend(env, events, st, e);
    if HonestRun(env, events) && NewId(st, e) { ExtendHonestly(env, events, st, e); }
    events' := events + [e];
    if next.Some? {
      var st' := Step(env, st, e);
      assert st'.calls - {id} == st.calls - {id};
      events' := CallRuns(env, events', st', id, o);
    }
  }

  /** So is publishing a recorded fill on all its topics. */
  lemma {:induction false} PublishRuns(env: Env, events: seq<Event>, st: State) returns (events': seq<Event>)
    requires Reaches(env, START, events, st) && st.up
    ensures Reaches(env, START, events', st.(world := PublishAll(st.world, st.publishing), publishing := None))
    ensures HonestRun(env, events) ==> HonestRun(env, events')
    decreases if st.publishing.None? then 0 else 1 + |st.publishing.value.topics|
  {
    if st.publishing.None? {
      events' := events;
    } else {
      Extend(env, events, st, Publish);
      if HonestRun(env, events) { ExtendHonestly(env, events, st, Publish); }
      events' := PublishRuns(env, events + [Publish], Step(env, st, Publish));
    }
  }

  /** The world after a first submission of `k` that the exchange accepted as `n`. */
  function Accepting(w: World, k: Key, symbol: string, n: string): World {
    World(w.rows[k := Record(symbol, n, "", "", Accepted, "")], w.trades,
          Identify(w.session, n, Identity(k, symbol)),
          w.log.(inserts := w.log.inserts + [k], issued := w.log.issued + {n},
                 replies := w.log.replies + [Placed(k, n)]))
  }

  lemma CallAccepted(w: World, k: Key, symbol: string, n: string)
    requires k !in w.rows && n != ""
    ensures RunCall(w, Call(k, symbol, Looking), Answered(0, n)) == Accepting(w, k, symbol, n)
  {
    var o := Answered(0, n);
    var w1 := w.(rows := w.rows[k := NewRecord(symbol)]);
    var w2 := w1.(log := w1.log.(inserts := w.log.inserts + [k], issued := w.log.issued + {n}));
    var w3 := w2.(rows := w.rows[k := Record(symbol, n, "", "", Accepted, "")]);
    assert PlaceStep(w1, Call(k, symbol, Submitting), o) == (w2, Some(Call(k, symbol, Recording(n))));
    assert w2.rows[k := Record(symbol, n, "", "", Accepted, "")] == w3.rows;
    assert PlaceStep(w2, Call(k, symbol, Recording(n)), o) == (w3, Some(Call(k, symbol, Installing(n))));
    calc {
      RunCall(w, Call(k, symbol, Looking), o);
      RunCall(w, Call(k, symbol, Reserving), o);
      RunCall(w1, Call(k, symbol, Submitting), o);
      RunCall(w2, Call(k, symbol, Recording(n)), o);
      RunCall(w3, Call(k, symbol, Installing(n)), o);
    }
  }

  /** The world after a first submission of `k` that failed with message `m`. */
  function Refusing(w: World, k: Key, symbol: string, m: string): World {
    World(w.rows[k := Record(symbol, "", "", "", SubmitFailed, m)], w.trades, w.session,
          w.log.(inserts := w.log.inserts + [k], replies := w.log.replies + [Refusal(k, m)]))
  }

  lemma CallRefused(w: World, k: Key, symbol: string, o: InsertOutcome)
    requires k !in w.rows && Refused(o).Some?
    ensures RunCall(w, Call(k, symbol, Looking), o) == Refusing(w, k, symbol, Refused(o).value)
  {
    var m := Refused(o).value;
    var w1 := w.(rows := w.rows[k := NewRecord(symbol)]);
    var w2 := w1.(log := w1.log.(inserts := w.log.inserts + [k]));
    assert PlaceStep(w1, Call(k, symbol, Submitting), o) == (w2, Some(Call(k, symbol, Failing(m))));
    assert w2.rows[k := Record(symbol, "", "", "", SubmitFailed, m)] ==
      w.rows[k := Record(symbol, "", "", "", SubmitFailed, m)];
    calc {
      RunCall(w, Call(k, symbol, Looking), o);
      RunCall(w, Call(k, symbol, Reserving), o);
      RunCall(w1, Call(k, symbol, Submitting), o);
      RunCall(w2, Call(k, symbol, Failing(m)), o);
    }
  }

  /** From an idle reachable state any fresh order can be placed and accepted, under any native id. */
  lemma PlaceAccepted(env: Env, events: seq<Event>, st: State, k: Key, symbol: string, n: string)
      returns (events': seq<Event>)
    requires Reaches(env, START, events, st) && st.up && st.calls == map[]
    requires k !in st.world.rows && n != ""
    ensures Reaches(env, START, events', st.(world := Accepting(st.world, k, symbol, n)))
    ensures Placing(events, events')
    ensures HonestRun(env, events) && n !in st.world.log.issued ==> HonestRun(env, events')
  {
    var e := BeginPlace(0, k, symbol);
    Extend(env, events, st, e);
    if HonestRun(env, events) { ExtendHonestly(env, events, st, e); }
    var st' := Step(env, st, e);
    events' := CallRuns(env, events + [e], st', 0, Answered(0, n));
    CallAccepted(st.world, k, symbol, n);
    assert st'.calls - {0} == map[];
  }

  /** The first start of an empty system. */
  lemma FirstStart(env: Env)
    ensures Honestly(env, [Restart([])], START.(up := true))
  {
    assert Reaches(env, START, [], START);
    assert Step(env, START, Restart([])) == START.(up := true);
    ExtendHonestly(env, [], START, Restart([]));
    assert [] + [Restart([])] == [Restart([])];
  }
}
