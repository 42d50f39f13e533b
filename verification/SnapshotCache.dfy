/** The position and order caches: refreshed by a query, kept current by pushes. */
module SnapshotCache {
  import opened Prelude
  import opened Text
  import Symbols

  datatype Kind = Positions | Orders

  /** Contract columns of a native row; the commodity type may be missing. */
  datatype Contract = Contract(exchange: string, commodityType: string, commodity: string, contract: string)

  /** `native`: the client order number of an order row; `rest`: the other columns. */
  datatype Data = Data(contract: Contract, side: string, native: string, rest: seq<string>)

  datatype CacheKey = ByContract(symbol: string, direction: string) | ByNative(native: string)

  datatype Entry = Entry(symbol: string, direction: string, rest: seq<string>)

  type ShortNames = map<(string, string, string), string>

  /**
   * Where a callback raises, if it does: before the cache is written (the store, a
   * conversion) or after (a publication).
   */
  datatype Fault = NoFault | BeforeWrite | AfterWrite

  datatype Resolution = Raised | Unknown | Known(symbol: string, short: ShortNames)

  /** `_register_symbol`; none when the text does not parse and it raises. */
  function Register(short: ShortNames, text: string): Option<ShortNames> {
    var parsed := Symbols.Parse(text);
    if parsed.None? then None
    else
      var info := parsed.value;
      Some(short[(info.exchangeNo, info.commodityNo, info.contractNo) := Symbols.Canonical(info)])
  }

  function Resolve(short: ShortNames, c: Contract): Resolution {
    var e, t, d, n := Upper(c.exchange), Upper(c.commodityType), Upper(c.commodity), Upper(c.contract);
    if e != "" && t != "" && d != "" && n != "" then
      var symbol := Symbols.Canonical(Symbols.Symbol(e, t, d, n));
      var registered := Register(short, symbol);
      if registered.None? then Raised else Known(symbol, registered.value)
    else if (e, d, n) in short && short[(e, d, n)] != "" then Known(short[(e, d, n)], short)
    else Unknown
  }

  function DirectionOf(side: string): string {
    if side == "B" then "BUY" else if side == "S" then "SELL" else ""
  }

  function KeyOf(kind: Kind, data: Data, symbol: string): CacheKey {
    if kind.Positions? then ByContract(symbol, DirectionOf(data.side)) else ByNative(data.native)
  }

  function EntryOf(data: Data, symbol: string): Entry {
    Entry(symbol, DirectionOf(data.side), data.rest)
  }

  /**
   * `stamp`: when the last row of an answer arrived, zero for never; `answered`: the
   * query event; `failed`: a query error is kept.
   */
  datatype Cache = Cache(short: ShortNames, entries: map<CacheKey, Entry>, stamp: real, answered: bool, failed: bool,
      busy: bool, closing: bool)

  function Empty(short: ShortNames): Cache {
    Cache(short, map[], 0.0, false, false, false, false)
  }

  /** A contract is named outside this cache. */
  function Taught(c: Cache, text: string): Cache {
    var registered := Register(c.short, text);
    if registered.None? then c else c.(short := registered.value)
  }

  /** What a row writes, if it resolves. */
  function WriteOf(kind: Kind, short: ShortNames, data: Data, fault: Fault): Option<(CacheKey, Entry)> {
    var r := Resolve(short, data.contract);
    if r.Known? && DirectionOf(data.side) != "" && !fault.BeforeWrite?
    then Some((KeyOf(kind, data, r.symbol), EntryOf(data, r.symbol))) else None
  }

  function Stored(c: Cache, write: Option<(CacheKey, Entry)>): Cache {
    if write.None? then c else c.(entries := c.entries[write.value.0 := write.value.1])
  }

  /** A row with data goes through name resolution, then into the cache. */
  function Updated(kind: Kind, c: Cache, data: Data, fault: Fault): Cache {
    var r := Resolve(c.short, data.contract);
    Stored(if r.Known? then c.(short := r.short) else c, WriteOf(kind, c.short, data, fault))
  }

  /** The callback ends early: in name resolution, before or after the write. */
  predicate Interrupted(short: ShortNames, data: Option<Data>, fault: Fault) {
    data.Some? && (
      var r := Resolve(short, data.value.contract);
      r.Raised? || (r.Known? && DirectionOf(data.value.side) != "" && !fault.NoFault?))
  }

  function Pushed(kind: Kind, c: Cache, data: Option<Data>, fault: Fault): Cache {
    if data.None? then c else Updated(kind, c, data.value, fault)
  }

  /** One row of an answer to query number `query`. */
  datatype Row = Row(query: nat, ok: bool, last: bool, data: Option<Data>, fault: Fault, now: real)

  function Answered(kind: Kind, c: Cache, row: Row): Cache {
    if !row.ok then c.(failed := true, answered := true)
    else
      var c' := Pushed(kind, c, row.data, row.fault);
      if row.last && !Interrupted(c.short, row.data, row.fault) then c'.(stamp := row.now, answered := true) else c'
  }

  predicate Fresh(stamp: real, now: real, maxAge: Option<real>) {
    maxAge.Some? && stamp > 0.0 && now - stamp <= maxAge.value
  }

  datatype Failure = TimedOut | QueryFailed

  /** A refresh takes the query lock, forgets the last error, empties the cache and asks. */
  function Begun(c: Cache): Cache {
    c.(failed := false, entries := map[], answered := false, busy := true)
  }

  function Finished(c: Cache, timedOut: bool): Cache {
    if timedOut then c.(busy := false) else c.(failed := false, busy := false)
  }

  function ReplyOf(c: Cache, timedOut: bool): Result<map<CacheKey, Entry>, Failure> {
    if timedOut then Err(TimedOut) else if c.failed then Err(QueryFailed) else Ok(c.entries)
  }

  function Closed(c: Cache): Cache {
    if c.closing then c else c.(closing := true, answered := true)
  }

  // ---- Names ----

  /** The same contract, however its columns are capitalised. */
  predicate SameContract(a: Contract, b: Contract) {
    Upper(a.exchange) == Upper(b.exchange) && Upper(a.commodity) == Upper(b.commodity)
      && Upper(a.contract) == Upper(b.contract)
  }

  /**
   * A row that names its commodity type teaches the session the contract: a later
   * row without one resolves to the same symbol. That symbol is canonical exactly
   * when no column carries blanks or a colon.
   */
  lemma ShortFollowsFull(short: ShortNames, full: Contract, part: Contract)
    requires full.exchange != "" && full.commodityType != "" && full.commodity != "" && full.contract != ""
    requires Resolve(short, full).Known? && part.commodityType == "" && SameContract(full, part)
    ensures var r := Resolve(short, full);
            var name := Symbols.Symbol(
                          Upper(full.exchange), Upper(full.commodityType), Upper(full.commodity), Upper(full.contract));
            && (Symbols.Parse(r.symbol) == Some(name) <==> Symbols.WellFormed(name))
            && (Symbols.WellFormed(name) ==> Resolve(r.short, part) == Known(r.symbol, r.short))
  {
    var name :=
      Symbols.Symbol(Upper(full.exchange), Upper(full.commodityType), Upper(full.commodity), Upper(full.contract));
    Symbols.RoundTrip(name);
    assert Upper(part.commodityType) == "";
  }

  // ---- Runs ----

  datatype Event =
    | Arrive(row: Row)
    | Push(data: Option<Data>, fault: Fault)
    | Named(text: string)
    | Begin(query: nat)
    | Finish(timedOut: bool)
    | Reset
    | Shut

  predicate Enabled(c: Cache, e: Event) {
    match e
    case Arrive(row) => row.now > 0.0
    case Push(_, _) => true
    case Named(_) => true
    case Begin(_) => !c.busy && !c.closing
    case Finish(timedOut) => c.busy && (timedOut || c.answered)
    case Reset => true
    case Shut => true
  }

  function Step(kind: Kind, c: Cache, e: Event): Cache {
    match e
    case Arrive(row) => Answered(kind, c, row)
    case Push(data, fault) => Pushed(kind, c, data, fault)
    case Named(text) => Taught(c, text)
    case Begin(_) => Begun(c)
    case Finish(timedOut) => Finished(c, timedOut)
    case Reset => c.(answered := false)
    case Shut => Closed(c)
  }

  function After(kind: Kind, short: ShortNames, es: seq<Event>): Cache {
    if es == [] then Empty(short)
    else Step(kind, After(kind, short, es[..|es| - 1]), es[|es| - 1])
  }

  predicate Possible(kind: Kind, short: ShortNames, es: seq<Event>) {
    es == [] ||
    (Possible(kind, short, es[..|es| - 1]) && Enabled(After(kind, short, es[..|es| - 1]), es[|es| - 1]))
  }

  /** What an event does to the contents. */
  datatype Effect = Clear | Put(key: CacheKey, entry: Entry) | Keep

  function PutOf(write: Option<(CacheKey, Entry)>): Effect {
    if write.None? then Keep else Put(write.value.0, write.value.1)
  }

  function EffectOf(kind: Kind, short: ShortNames, e: Event): Effect {
    match e
    case Arrive(row) =>
      if row.ok && row.data.Some? then PutOf(WriteOf(kind, short, row.data.value, row.fault)) else Keep
    case Push(data, fault) => if data.Some? then PutOf(WriteOf(kind, short, data.value, fault)) else Keep
    case Named(_) => Keep
    case Begin(_) => Clear
    case Finish(_) => Keep
    case Reset => Keep
    case Shut => Keep
  }

  /** One effect for each event of the run. */
  function Effects(kind: Kind, short: ShortNames, es: seq<Event>): (r: seq<Effect>)
    ensures |r| == |es|
  {
    if es == [] then []
    else
      var n := |es| - 1;
      Effects(kind, short, es[..n]) + [EffectOf(kind, After(kind, short, es[..n]).short, es[n])]
  }

  function Fold(fx: seq<Effect>): map<CacheKey, Entry> {
    if fx == [] then map[]
    else
      var before := Fold(fx[..|fx| - 1]);
      match fx[|fx| - 1]
      case Clear => map[]
      case Put(key, entry) => before[key := entry]
      case Keep => before
  }

  lemma UpdatedEntries(kind: Kind, c: Cache, data: Data, fault: Fault)
    ensures Updated(kind, c, data, fault).entries ==
            match PutOf(WriteOf(kind, c.short, data, fault))
            case Put(key, entry) => c.entries[key := entry]
            case _ => c.entries
  {
  }

  lemma AnsweredEntries(kind: Kind, c: Cache, row: Row)
    ensures Answered(kind, c, row).entries ==
            if row.ok && row.data.Some? then Updated(kind, c, row.data.value, row.fault).entries else c.entries
  {
  }

  lemma StepEffect(kind: Kind, c: Cache, e: Event)
    ensures Step(kind, c, e).entries ==
            match EffectOf(kind, c.short, e)
            case Clear => map[]
            case Put(key, entry) => c.entries[key := entry]
            case Keep => c.entries
  {
    match e {
      case Arrive(row) =>
        AnsweredEntries(kind, c, row);
        if row.ok && row.data.Some? { UpdatedEntries(kind, c, row.data.value, row.fault); }
      case Push(data, fault) =>
        if data.Some? { UpdatedEntries(kind, c, data.value, fault); }
      case _ =>
    }
  }

  lemma {:induction false} EntriesAreFold(kind: Kind, short: ShortNames, es: seq<Event>)
    ensures After(kind, short, es).entries == Fold(Effects(kind, short, es))
  {
    if es != [] {
      var n := |es| - 1;
      EntriesAreFold(kind, short, es[..n]);
      StepEffect(kind, After(kind, short, es[..n]), es[n]);
      var fx := Effects(kind, short, es);
      assert fx[..n] == Effects(kind, short, es[..n]);
    }
  }

  /** Effect i is the latest write of `k` and nothing was cleared since. */
  ghost predicate LastPut(fx: seq<Effect>, i: int, k: CacheKey) {
    && 0 <= i < |fx| && fx[i].Put? && fx[i].key == k
    && forall j :: i < j < |fx| ==> !fx[j].Clear? && (fx[j].Put? ==> fx[j].key != k)
  }

  lemma LastPutStep(fx: seq<Effect>, i: int, k: CacheKey)
    requires 0 <= i < |fx| - 1
    ensures var last := fx[|fx| - 1];
            LastPut(fx, i, k) <==> LastPut(fx[..|fx| - 1], i, k) && !last.Clear? && (last.Put? ==> last.key != k)
  {
    var init := fx[..|fx| - 1];
    if LastPut(init, i, k) && !fx[|fx| - 1].Clear? && (fx[|fx| - 1].Put? ==> fx[|fx| - 1].key != k) {
      forall j | i < j < |fx| ensures !fx[j].Clear? && (fx[j].Put? ==> fx[j].key != k) {
        if j < |init| { assert init[j] == fx[j]; }
      }
    }
  }

  lemma {:induction false} FoldIsLastPut(fx: seq<Effect>, k: CacheKey)
    ensures k in Fold(fx) <==> exists i :: LastPut(fx, i, k)
    ensures forall i :: LastPut(fx, i, k) ==> Fold(fx)[k] == fx[i].entry
  {
    if fx != [] {
      var n := |fx| - 1;
      FoldIsLastPut(fx[..n], k);
      forall i | 0 <= i < n
        ensures LastPut(fx, i, k) <==> LastPut(fx[..n], i, k) && !fx[n].Clear? && (fx[n].Put? ==> fx[n].key != k)
      {
        LastPutStep(fx, i, k);
      }
      if fx[n].Put? && fx[n].key == k {
        assert LastPut(fx, n, k);
      } else if k in Fold(fx) {
        var i :| LastPut(fx[..n], i, k);
        assert LastPut(fx, i, k);
      }
    }
  }

  /**
   * The cache is the last-write-wins fold of everything that resolved since the
   * latest refresh started: a key is present exactly when it was written since
   * then, with what the latest such write gave it.
   */
  lemma CacheIsLastWrites(kind: Kind, short: ShortNames, es: seq<Event>, k: CacheKey)
    ensures var entries, fx := After(kind, short, es).entries, Effects(kind, short, es);
            && (k in entries <==> exists i :: LastPut(fx, i, k))
            && (forall i :: LastPut(fx, i, k) ==> entries[k] == fx[i].entry)
  {
    EntriesAreFold(kind, short, es);
    FoldIsLastPut(Effects(kind, short, es), k);
  }

  // ---- Refreshes ----

  /** Event e, in this state, delivers the error-free last row of an answer. */
  predicate Completes(c: Cache, e: Event) {
    e.Arrive? && e.row.ok && e.row.last && !Interrupted(c.short, e.row.data, e.row.fault)
  }

  /** Event i of the run completes an answer, and no refresh started after it. */
  ghost predicate Backing(kind: Kind, short: ShortNames, es: seq<Event>, i: int) {
    && 0 <= i < |es| && Completes(After(kind, short, es[..i]), es[i])
    && forall j :: i < j < |es| ==> !es[j].Begin?
  }

  ghost predicate Backed(kind: Kind, short: ShortNames, es: seq<Event>) {
    exists i :: Backing(kind, short, es, i)
  }

  lemma BackingStep(kind: Kind, short: ShortNames, es: seq<Event>, i: int)
    requires 0 <= i < |es| - 1 && !es[|es| - 1].Begin?
    ensures Backing(kind, short, es[..|es| - 1], i) ==> Backing(kind, short, es, i)
  {
    var init := es[..|es| - 1];
    assert init[..i] == es[..i];
    if Backing(kind, short, init, i) {
      forall j | i < j < |es| ensures !es[j].Begin? {
        if j < |init| { assert init[j] == es[j]; }
      }
    }
  }

  lemma BackedStep(kind: Kind, short: ShortNames, es: seq<Event>)
    requires es != []
    ensures var n := |es| - 1;
            (Backed(kind, short, es[..n]) && !es[n].Begin?) || Completes(After(kind, short, es[..n]), es[n]) ==>
              Backed(kind, short, es)
  {
    var n := |es| - 1;
    if Completes(After(kind, short, es[..n]), es[n]) {
      assert Backing(kind, short, es, n);
    } else if Backed(kind, short, es[..n]) && !es[n].Begin? {
      var i :| Backing(kind, short, es[..n], i);
      BackingStep(kind, short, es, i);
    }
  }

  /** While a refresh waits, the event without an error means an answer was completed. */
  lemma AnsweredStep(kind: Kind, c: Cache, e: Event)
    requires Enabled(c, e)
    ensures var c' := Step(kind, c, e);
            c'.busy && c'.answered && !c'.failed && !c'.closing ==>
              (c.busy && c.answered && !c.failed && !c.closing && !e.Begin?) || Completes(c, e)
  {
  }

  lemma {:induction false} AnsweredIsBacked(kind: Kind, short: ShortNames, es: seq<Event>)
    requires Possible(kind, short, es)
    ensures var c := After(kind, short, es); c.busy && c.answered && !c.failed && !c.closing ==> Backed(kind, short, es)
  {
    if es != [] {
      var n := |es| - 1;
      AnsweredIsBacked(kind, short, es[..n]);
      AnsweredStep(kind, After(kind, short, es[..n]), es[n]);
      BackedStep(kind, short, es);
    }
  }

  /** Every row since the refresh answers the query of that refresh. */
  ghost predicate OwnAnswers(es: seq<Event>, b: int) {
    && 0 <= b < |es| && es[b].Begin?
    && forall j :: b < j < |es| && es[j].Arrive? ==> es[j].row.query == es[b].query
  }

  /**
   * A refresh that succeeds on an open session does so because, since it emptied
   * the cache, the last row of an answer arrived without error; when no answer to
   * an earlier query arrived late, that row belongs to the refresh's own query.
   */
  lemma SuccessfulRefresh(kind: Kind, short: ShortNames, es: seq<Event>, b: int)
    requires Possible(kind, short, es) && Enabled(After(kind, short, es), Finish(false))
    requires ReplyOf(After(kind, short, es), false).Ok? && !After(kind, short, es).closing
    requires 0 <= b < |es| && es[b].Begin?
    ensures exists i ::
              && b < i < |es| && Backing(kind, short, es, i)
              && (OwnAnswers(es, b) ==> es[i].row.query == es[b].query)
  {
    AnsweredIsBacked(kind, short, es);
    var i :| Backing(kind, short, es, i);
    assert b < i;
  }

  /** The latest completed answer of the run. */
  ghost predicate Latest(kind: Kind, short: ShortNames, es: seq<Event>, i: int) {
    && 0 <= i < |es| && Completes(After(kind, short, es[..i]), es[i])
    && forall j :: i < j < |es| ==> !Completes(After(kind, short, es[..j]), es[j])
  }

  lemma LatestStep(kind: Kind, short: ShortNames, es: seq<Event>, i: int)
    requires 0 <= i < |es| - 1 && Latest(kind, short, es[..|es| - 1], i)
    requires !Completes(After(kind, short, es[..|es| - 1]), es[|es| - 1])
    ensures Latest(kind, short, es, i)
  {
    var init := es[..|es| - 1];
    assert init[..i] == es[..i];
    forall j | i < j < |es| ensures !Completes(After(kind, short, es[..j]), es[j]) {
      if j < |init| { assert init[..j] == es[..j] && init[j] == es[j]; }
    }
  }

  lemma StampStep(kind: Kind, c: Cache, e: Event)
    requires Enabled(c, e)
    ensures Step(kind, c, e).stamp == if Completes(c, e) then e.row.now else c.stamp
    ensures Completes(c, e) ==> e.row.now > 0.0
  {
  }

  lemma {:induction false} StampIsLatest(kind: Kind, short: ShortNames, es: seq<Event>)
    requires Possible(kind, short, es)
    ensures var stamp := After(kind, short, es).stamp;
            && stamp >= 0.0
            && (stamp == 0.0 || exists i :: Latest(kind, short, es, i))
            && forall i :: Latest(kind, short, es, i) ==> es[i].row.now == stamp > 0.0
  {
    if es != [] {
      var n := |es| - 1;
      StampIsLatest(kind, short, es[..n]);
      StampStep(kind, After(kind, short, es[..n]), es[n]);
      LatestMoves(kind, short, es);
      if Completes(After(kind, short, es[..n]), es[n]) {
        assert Latest(kind, short, es, n);
      }
    }
  }

  /** The latest completed answer is the last event, or the one it was before. */
  lemma LatestMoves(kind: Kind, short: ShortNames, es: seq<Event>)
    requires es != []
    ensures var n := |es| - 1;
            var completes := Completes(After(kind, short, es[..n]), es[n]);
            forall i :: Latest(kind, short, es, i) <==> if completes then i == n else Latest(kind, short, es[..n], i)
  {
    var n := |es| - 1;
    forall i ensures Latest(kind, short, es, i) <==>
        if Completes(After(kind, short, es[..n]), es[n]) then i == n else Latest(kind, short, es[..n], i) {
      if 0 <= i < n {
        if !Completes(After(kind, short, es[..n]), es[n]) && Latest(kind, short, es[..n], i) {
          LatestStep(kind, short, es, i);
        }
        if Latest(kind, short, es, i) { LatestBefore(kind, short, es, i); }
      }
    }
  }

  lemma LatestBefore(kind: Kind, short: ShortNames, es: seq<Event>, i: int)
    requires 0 <= i < |es| - 1 && Latest(kind, short, es, i)
    ensures Latest(kind, short, es[..|es| - 1], i)
  {
    var init := es[..|es| - 1];
    assert init[..i] == es[..i];
    forall j | i < j < |init| ensures !Completes(After(kind, short, init[..j]), init[j]) {
      assert init[..j] == es[..j];
    }
  }

  /**
   * A cached read is served only when some answer was completed within the
   * requested age; that answer is still the one behind the contents exactly
   * when no refresh has started since.
   */
  lemma FreshRead(kind: Kind, short: ShortNames, es: seq<Event>, now: real, maxAge: Option<real>)
    requires Possible(kind, short, es) && Fresh(After(kind, short, es).stamp, now, maxAge)
    ensures exists i :: Latest(kind, short, es, i) && now - es[i].row.now <= maxAge.value
                     && (Backed(kind, short, es) <==> forall j :: i < j < |es| ==> !es[j].Begin?)
  {
    StampIsLatest(kind, short, es);
    var i :| Latest(kind, short, es, i);
    if forall j :: i < j < |es| ==> !es[j].Begin? {
      assert Backing(kind, short, es, i);
    }
  }

  lemma AfterSnoc(kind: Kind, short: ShortNames, es: seq<Event>, e: Event)
    ensures After(kind, short, es + [e]) == Step(kind, After(kind, short, es), e)
    ensures Possible(kind, short, es + [e]) <==> Possible(kind, short, es) && Enabled(After(kind, short, es), e)
  {
    assert (es + [e])[..|es|] == es;
  }

  /**
   * The age of the cache survives the refresh that empties it: after one that
   * timed out, or was answered with an error, a read that was fresh before is
   * still served, and it is served nothing.
   */
  lemma EmptiedButFresh(kind: Kind, short: ShortNames, es: seq<Event>, query: nat, error: Row, now: real,
      maxAge: Option<real>)
    requires Possible(kind, short, es) && !After(kind, short, es).busy && !After(kind, short, es).closing
    requires Fresh(After(kind, short, es).stamp, now, maxAge) && !error.ok && error.now > 0.0
    ensures var givenUp := es + [Begin(query)] + [Finish(true)];
            var refused := es + [Begin(query)] + [Arrive(error)] + [Finish(false)];
            && Possible(kind, short, givenUp) && Possible(kind, short, refused)
            && Fresh(After(kind, short, givenUp).stamp, now, maxAge) && After(kind, short, givenUp).entries == map[]
            && Fresh(After(kind, short, refused).stamp, now, maxAge) && After(kind, short, refused).entries == map[]
            && !After(kind, short, givenUp).busy && !After(kind, short, refused).busy
  {
    AfterSnoc(kind, short, es, Begin(query));
    AfterSnoc(kind, short, es + [Begin(query)], Finish(true));
    AfterSnoc(kind, short, es + [Begin(query)], Arrive(error));
    AfterSnoc(kind, short, es + [Begin(query)] + [Arrive(error)], Finish(false));
  }

  /** The closing row of any earlier query's answer completes a refresh with an empty reply. */
  lemma LateAnswerCompletes(kind: Kind, short: ShortNames, es: seq<Event>, query: nat, earlier: nat, now: real)
    requires Possible(kind, short, es) && !After(kind, short, es).busy && !After(kind, short, es).closing && now > 0.0
    ensures var run := es + [Begin(query)] + [Arrive(Row(earlier, true, true, None, NoFault, now))];
            && Possible(kind, short, run) && Enabled(After(kind, short, run), Finish(false))
            && ReplyOf(After(kind, short, run), false) == Ok(map[])
  {
    AfterSnoc(kind, short, es, Begin(query));
    AfterSnoc(kind, short, es + [Begin(query)], Arrive(Row(earlier, true, true, None, NoFault, now)));
  }

  lemma ClosedRefresh(c: Cache)
    requires !c.busy && !c.closing
    ensures var c' := Closed(Begun(c)); Enabled(c', Finish(false)) && ReplyOf(c', false) == Ok(map[])
  {
  }

  /** So does closing the session: a query that waits then reports success with what has arrived so far. */
  lemma ClosingCompletes(kind: Kind, short: ShortNames, es: seq<Event>, query: nat)
    requires Possible(kind, short, es) && !After(kind, short, es).busy && !After(kind, short, es).closing
    ensures var run := es + [Begin(query)] + [Shut];
            && Possible(kind, short, run) && Enabled(After(kind, short, run), Finish(false))
            && ReplyOf(After(kind, short, run), false) == Ok(map[])
  {
    AfterSnoc(kind, short, es, Begin(query));
    AfterSnoc(kind, short, es + [Begin(query)], Shut);
    ClosedRefresh(After(kind, short, es));
  }

  /**
   * Only a client's refresh forgets: whatever arrives otherwise, a whole new
   * initial sync after a reconnect included, no entry ever leaves the cache.
   */
  lemma {:induction false} EntriesStay(kind: Kind, short: ShortNames, es: seq<Event>, more: seq<Event>)
    requires forall i :: 0 <= i < |more| ==> !more[i].Begin?
    ensures After(kind, short, es).entries.Keys <= After(kind, short, es + more).entries.Keys
  {
    if more == [] {
      assert es + more == es;
    } else {
      var n := |more| - 1;
      EntriesStay(kind, short, es, more[..n]);
      AfterSnoc(kind, short, es + more[..n], more[n]);
      assert es + more == es + more[..n] + [more[n]];
      StepEffect(kind, After(kind, short, es + more[..n]), more[n]);
    }
  }

  // ---- The object ----

  class QueryCache {
    const kind: Kind
    var symbolByShort: ShortNames
    var entries: map<CacheKey, Entry>
    var stamp: real
    var answered: bool
    var failed: bool
    var busy: bool
    var closing: bool
    ghost const initial: ShortNames
    ghost var history: seq<Event>

    ghost function View(): Cache
      reads this
    {
      Cache(symbolByShort, entries, stamp, answered, failed, busy, closing)
    }

    /** The object is where its history leads. */
    ghost predicate Valid()
      reads this
    {
      Possible(kind, initial, history) && View() == After(kind, initial, history)
    }

    constructor (kind: Kind, short: ShortNames)
      ensures Valid() && this.kind == kind && initial == short && history == [] && View() == Empty(short)
    {
      this.kind, symbolByShort, entries, stamp := kind, short, map[], 0.0;
      answered, failed, busy, closing := false, false, false, false;
      initial, history := short, [];
    }

    method RegisterSymbol(text: string) returns (ok: bool)
      modifies this`symbolByShort
      ensures ok <==> Register(old(symbolByShort), text).Some?
      ensures symbolByShort == if ok then Register(old(symbolByShort), text).value else old(symbolByShort)
    {
      var parsed := Symbols.Parse(text);
      if parsed.None? {
        return false;
      }
      var info := parsed.value;
      symbolByShort := symbolByShort[(info.exchangeNo, info.commodityNo, info.contractNo) := Symbols.Canonical(info)];
      return true;
    }

    /** A subscription, a quote, a fill or a row of the other cache names a contract. */
    method Learn(text: string)
      requires Valid()
      modifies this
      ensures Valid() && history == old(history) + [Named(text)]
      ensures View() == Taught(old(View()), text)
    {
      ghost var before := View();
      var _ := RegisterSymbol(text);
      Happened(Named(text), before);
    }

    /** `_canonical_from_data`: the symbol, "" when it does not resolve, `None` when registering it raises. */
    method CanonicalFromData(c: Contract) returns (symbol: Option<string>)
      modifies this`symbolByShort
      ensures var r := Resolve(old(symbolByShort), c);
              && (symbol == if r.Raised? then None else if r.Unknown? then Some("") else Some(r.symbol))
              && symbolByShort == (if r.Known? then r.short else old(symbolByShort))
              && (r.Known? ==> r.symbol != "")
    {
      var exchange, commodityType := Upper(c.exchange), Upper(c.commodityType);
      var commodity, contract := Upper(c.commodity), Upper(c.contract);
      if exchange != "" && commodityType != "" && commodity != "" && contract != "" {
        var name := Symbols.Canonical(Symbols.Symbol(exchange, commodityType, commodity, contract));
        var registered := RegisterSymbol(name);
        return if registered then Some(name) else None;
      }
      if (exchange, commodity, contract) in symbolByShort {
        return Some(symbolByShort[(exchange, commodity, contract)]);
      }
      return Some("");
    }

    /** `_update_position` and the cache part of `_update_order`. */
    method Update(data: Data, fault: Fault) returns (raised: bool)
      modifies this`symbolByShort, this`entries
      ensures View() == Updated(kind, old(View()), data, fault)
      ensures raised == Interrupted(old(symbolByShort), Some(data), fault)
    {
      var symbol := CanonicalFromData(data.contract);
      if symbol.None? {
        return true;
      }
      var direction := DirectionOf(data.side);
      if symbol.value == "" || direction == "" {
        return false;
      }
      if fault.BeforeWrite? {
        return true;
      }
      var key := if kind.Positions? then ByContract(symbol.value, direction) else ByNative(data.native);
      entries := entries[key := Entry(symbol.value, direction, data.rest)];
      return fault.AfterWrite?;
    }

    /** Bookkeeping: the event happened. */
    ghost method Happened(e: Event, before: Cache)
      requires Possible(kind, initial, history) && After(kind, initial, history) == before
      requires Enabled(before, e) && View() == Step(kind, before, e)
      modifies this`history
      ensures Valid() && history == old(history) + [e]
    {
      AfterSnoc(kind, initial, history, e);
      history := history + [e];
    }

    method OnPush(data: Option<Data>, fault: Fault)
      requires Valid()
      modifies this
      ensures Valid() && history == old(history) + [Push(data, fault)]
      ensures View() == Pushed(kind, old(View()), data, fault)
    {
      ghost var before := View();
      if data.Some? {
        var _ := Update(data.value, fault);
      }
      Happened(Push(data, fault), before);
    }

    method OnResponse(row: Row)
      requires Valid() && row.now > 0.0
      modifies this
      ensures Valid() && history == old(history) + [Arrive(row)]
      ensures View() == Answered(kind, old(View()), row)
    {
      ghost var before := View();
      if !row.ok {
        failed, answered := true, true;
      } else {
        var raised := false;
        if row.data.Some? {
          raised := Update(row.data.value, row.fault);
        }
        if row.last && !raised {
          stamp, answered := row.now, true;
        }
      }
      Happened(Arrive(row), before);
    }

    /**
     * The first half of `query_positions` and `query_orders`: a cached answer is
     * served exactly when some answer was completed within the age, and holds
     * exactly what resolved since the latest refresh started, each key with its latest write.
     */
    method Read(now: real, maxAge: Option<real>) returns (r: Option<map<CacheKey, Entry>>)
      requires Valid()
      ensures r.Some? <==>
                && maxAge.Some?
                && exists i :: Latest(kind, initial, history, i) && now - history[i].row.now <= maxAge.value
      ensures r.Some? ==> var fx := Effects(kind, initial, history);
              forall k :: (k in r.value <==> exists i :: LastPut(fx, i, k))
                && forall i :: LastPut(fx, i, k) ==> r.value[k] == fx[i].entry
    {
      StampIsLatest(kind, initial, history);
      if maxAge.Some? && stamp > 0.0 && now - stamp <= maxAge.value {
        EntriesAreFold(kind, initial, history);
        forall k ensures k in entries <==> exists i :: LastPut(Effects(kind, initial, history), i, k) {
          FoldIsLastPut(Effects(kind, initial, history), k);
        }
        forall k, i | LastPut(Effects(kind, initial, history), i, k)
          ensures entries[k] == Effects(kind, initial, history)[i].entry
        {
          FoldIsLastPut(Effects(kind, initial, history), k);
        }
        return Some(entries);
      }
      return None;
    }

    method BeginRefresh(ghost query: nat)
      requires Valid() && !busy && !closing
      modifies this
      ensures Valid() && history == old(history) + [Begin(query)]
      ensures View() == Begun(old(View()))
    {
      ghost var before := View();
      busy := true;
      failed, entries, answered := false, map[], false;
      Happened(Begin(query), before);
    }

    method FinishRefresh(timedOut: bool) returns (r: Result<map<CacheKey, Entry>, Failure>)
      requires Valid() && busy && (timedOut || answered)
      modifies this
      ensures Valid() && history == old(history) + [Finish(timedOut)]
      ensures View() == Finished(old(View()), timedOut)
      ensures r == ReplyOf(old(View()), timedOut)
    {
      ghost var before := View();
      busy := false;
      if timedOut {
        r := Err(TimedOut);
      } else if failed {
        failed := false;
        r := Err(QueryFailed);
      } else {
        r := Ok(entries);
      }
      Happened(Finish(timedOut), before);
    }

    method ResetConnectionState()
      requires Valid()
      modifies this
      ensures Valid() && history == old(history) + [Reset]
      ensures View() == old(View()).(answered := false)
    {
      ghost var before := View();
      answered := false;
      Happened(Reset, before);
    }

    /** Closing the session releases every waiting query. */
    method CloseSession()
      requires Valid()
      modifies this
      ensures Valid() && history == old(history) + [Shut]
      ensures View() == Closed(old(View()))
    {
      ghost var before := View();
      if !closing {
        closing, answered := true, true;
      }
      Happened(Shut, before);
    }
  }
}
