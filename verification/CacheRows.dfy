/** What the position and order caches hold, in terms of the native rows that arrived. */
module CacheRows {
  import opened Prelude
  import opened Text
  import Symbols
  import opened SnapshotCache
  import OrderSession

  /** The side a native letter stands for. */
  predicate SideOf(letter: string, side: string) {
    (letter == "B" && side == "BUY") || (letter == "S" && side == "SELL")
  }

  /** The data event i delivers, in an answer without error or as a push. */
  predicate Brings(es: seq<Event>, i: int, d: Data, fault: Fault) {
    0 <= i < |es| &&
    match es[i]
    case Arrive(row) => row.ok && row.data == Some(d) && row.fault == fault
    case Push(data, f) => data == Some(d) && f == fault
    case _ => false
  }

  /** Event i brings a row that resolves to this symbol and side and is not cut off before the cache. */
  ghost predicate Resolves(kind: Kind, short: ShortNames, es: seq<Event>, i: int, d: Data, symbol: string,
      side: string)
  {
    && (exists fault :: Brings(es, i, d, fault) && !fault.BeforeWrite?)
    && SideOf(d.side, side)
    && var r := Resolve(After(kind, short, es[..i]).short, d.contract); r.Known? && r.symbol == symbol
  }

  /** The row is the latest order row with its native id, and no refresh started since. */
  ghost predicate LatestOrder(short: ShortNames, es: seq<Event>, i: int, d: Data, symbol: string, side: string) {
    && Resolves(Orders, short, es, i, d, symbol, side)
    && forall j :: i < j < |es| ==>
         !es[j].Begin? && forall e, s, b :: Resolves(Orders, short, es, j, e, s, b) ==> e.native != d.native
  }

  /** The row is the latest position row of its contract and side, and no refresh started since. */
  ghost predicate LatestPosition(short: ShortNames, es: seq<Event>, i: int, d: Data, symbol: string, side: string) {
    && Resolves(Positions, short, es, i, d, symbol, side)
    && forall j :: i < j < |es| ==>
         !es[j].Begin? && forall e, s, b :: Resolves(Positions, short, es, j, e, s, b) ==> s != symbol || b != side
  }

  lemma LastEffect(kind: Kind, short: ShortNames, es: seq<Event>)
    requires es != []
    ensures var n, fx := |es| - 1, Effects(kind, short, es);
            && fx[..n] == Effects(kind, short, es[..n])
            && fx[n] == EffectOf(kind, After(kind, short, es[..n]).short, es[n])
  {
  }

  /** The effects of a prefix are a prefix of the effects. */
  lemma {:induction false} EffectsPrefix(kind: Kind, short: ShortNames, es: seq<Event>, m: nat)
    requires m <= |es|
    ensures Effects(kind, short, es)[..m] == Effects(kind, short, es[..m])
  {
    if m == |es| {
      assert es[..m] == es;
    } else {
      var n := |es| - 1;
      LastEffect(kind, short, es);
      EffectsPrefix(kind, short, es[..n], m);
      assert es[..n][..m] == es[..m];
    }
  }

  lemma EffectAt(kind: Kind, short: ShortNames, es: seq<Event>, i: nat)
    requires i < |es|
    ensures Effects(kind, short, es)[i] == EffectOf(kind, After(kind, short, es[..i]).short, es[i])
  {
    EffectsPrefix(kind, short, es, i + 1);
    LastEffect(kind, short, es[..i + 1]);
    assert es[..i + 1][..i] == es[..i];
  }

  lemma SideRead(letter: string, side: string)
    ensures SideOf(letter, side) <==> DirectionOf(letter) == side && side != ""
  {
  }

  /** The key a resolving row is kept under. */
  function RowKey(kind: Kind, d: Data, symbol: string, side: string): CacheKey {
    if kind.Orders? then ByNative(d.native) else ByContract(symbol, side)
  }

  /** An order row writes under its native id, a position row under its contract and side; nothing else writes. */
  lemma EffectMeans(kind: Kind, short: ShortNames, es: seq<Event>, i: nat, k: CacheKey, entry: Entry)
    requires i < |es|
    ensures Effects(kind, short, es)[i] == Put(k, entry) <==>
              exists d, symbol, side ::
                && Resolves(kind, short, es, i, d, symbol, side)
                && k == RowKey(kind, d, symbol, side)
                && entry == Entry(symbol, side, d.rest)
    ensures Effects(kind, short, es)[i].Clear? <==> es[i].Begin?
  {
    EffectAt(kind, short, es, i);
    if Effects(kind, short, es)[i] == Put(k, entry) {
      var d := if es[i].Arrive? then es[i].row.data.value else es[i].data.value;
      var fault := if es[i].Arrive? then es[i].row.fault else es[i].fault;
      assert Brings(es, i, d, fault);
      SideRead(d.side, DirectionOf(d.side));
      assert Resolves(kind, short, es, i, d, entry.symbol, entry.direction);
    }
    if d, symbol, side :|
      && Resolves(kind, short, es, i, d, symbol, side)
      && k == RowKey(kind, d, symbol, side)
      && entry == Entry(symbol, side, d.rest)
    {
      SideRead(d.side, side);
    }
  }

  lemma LastPutIsLatest(kind: Kind, short: ShortNames, es: seq<Event>, i: int, d: Data, symbol: string, side: string)
    requires Resolves(kind, short, es, i, d, symbol, side)
    ensures var k := RowKey(kind, d, symbol, side);
            && Effects(kind, short, es)[i] == Put(k, Entry(symbol, side, d.rest))
            && (LastPut(Effects(kind, short, es), i, k) <==>
                  if kind.Orders? then LatestOrder(short, es, i, d, symbol, side)
                  else LatestPosition(short, es, i, d, symbol, side))
  {
    var fx, k := Effects(kind, short, es), RowKey(kind, d, symbol, side);
    EffectMeans(kind, short, es, i, k, Entry(symbol, side, d.rest));
    if LastPut(fx, i, k) {
      forall j | i < j < |es| ensures !es[j].Begin? { WritesKey(kind, short, es, j, k); }
      forall j, e, s, b | i < j < |es| && Resolves(kind, short, es, j, e, s, b) ensures RowKey(kind, e, s, b) != k {
        WritesKey(kind, short, es, j, k);
      }
    }
    var latest := if kind.Orders? then LatestOrder(short, es, i, d, symbol, side)
                  else LatestPosition(short, es, i, d, symbol, side);
    if latest {
      forall j | i < j < |es| ensures !fx[j].Clear? && (fx[j].Put? ==> fx[j].key != k) {
        WritesKey(kind, short, es, j, k);
      }
    }
  }

  lemma WritesKey(kind: Kind, short: ShortNames, es: seq<Event>, j: nat, k: CacheKey)
    requires j < |es|
    ensures var fx := Effects(kind, short, es);
            && (fx[j].Clear? <==> es[j].Begin?)
            && (fx[j].Put? && fx[j].key == k <==>
                  exists e, s, b :: Resolves(kind, short, es, j, e, s, b) && k == RowKey(kind, e, s, b))
  {
    var fx := Effects(kind, short, es);
    EffectMeans(kind, short, es, j, k, if fx[j].Put? then fx[j].entry else Entry("", "", []));
    if e, s, b :| Resolves(kind, short, es, j, e, s, b) && k == RowKey(kind, e, s, b) {
      EffectMeans(kind, short, es, j, k, Entry(s, b, e.rest));
    }
  }

  /**
   * The order cache holds one entry per native id: that of the latest row with
   * this id since the latest refresh started, with the row's symbol, the side its
   * letter means and its other columns. It holds nothing else.
   */
  lemma OrdersByNative(short: ShortNames, es: seq<Event>, k: CacheKey)
    ensures var entries := After(Orders, short, es).entries;
            && (k in entries <==>
                  k.ByNative? && exists i, d, symbol, side ::
                    LatestOrder(short, es, i, d, symbol, side) && d.native == k.native)
            && (forall i, d, symbol, side :: LatestOrder(short, es, i, d, symbol, side) && k == ByNative(d.native) ==>
                  entries[k] == Entry(symbol, side, d.rest))
  {
    CacheIsLastWrites(Orders, short, es, k);
    var entries, fx := After(Orders, short, es).entries, Effects(Orders, short, es);
    forall i, d, symbol, side | LatestOrder(short, es, i, d, symbol, side) && k == ByNative(d.native)
      ensures k in entries && entries[k] == Entry(symbol, side, d.rest)
    {
      LastPutIsLatest(Orders, short, es, i, d, symbol, side);
    }
    if k in entries {
      var i :| LastPut(fx, i, k);
      EffectMeans(Orders, short, es, i, k, fx[i].entry);
      var d, symbol, side :| Resolves(Orders, short, es, i, d, symbol, side) && k == ByNative(d.native);
      LastPutIsLatest(Orders, short, es, i, d, symbol, side);
    }
  }

  /** The position cache holds one entry per contract and side, likewise. */
  lemma PositionsByContract(short: ShortNames, es: seq<Event>, k: CacheKey)
    ensures var entries := After(Positions, short, es).entries;
            && (k in entries <==>
                  k.ByContract? && exists i, d :: LatestPosition(short, es, i, d, k.symbol, k.direction))
            && (forall i, d, symbol, side ::
                  LatestPosition(short, es, i, d, symbol, side) && k == ByContract(symbol, side) ==>
                    entries[k] == Entry(symbol, side, d.rest))
  {
    CacheIsLastWrites(Positions, short, es, k);
    var entries, fx := After(Positions, short, es).entries, Effects(Positions, short, es);
    forall i, d, symbol, side | LatestPosition(short, es, i, d, symbol, side) && k == ByContract(symbol, side)
      ensures k in entries && entries[k] == Entry(symbol, side, d.rest)
    {
      LastPutIsLatest(Positions, short, es, i, d, symbol, side);
    }
    if k in entries {
      var i :| LastPut(fx, i, k);
      EffectMeans(Positions, short, es, i, k, fx[i].entry);
      var d, symbol, side :| Resolves(Positions, short, es, i, d, symbol, side) && k == ByContract(symbol, side);
      LastPutIsLatest(Positions, short, es, i, d, symbol, side);
    }
  }

  /** Two rows, nothing in between: the later one takes the earlier one's place exactly when they share the key. */
  lemma OverwritesExactly(kind: Kind, short: ShortNames, es: seq<Event>, i: int, j: int,
      d: Data, s: string, b: string, e: Data, t: string, c: string)
    requires i < j && Resolves(kind, short, es, i, d, s, b) && Resolves(kind, short, es, j, e, t, c)
    ensures Effects(kind, short, es)[i].Put? && Effects(kind, short, es)[j].Put?
    ensures Effects(kind, short, es)[i].key == Effects(kind, short, es)[j].key <==>
              if kind.Orders? then d.native == e.native else s == t && b == c
  {
    LastPutIsLatest(kind, short, es, i, d, s, b);
    LastPutIsLatest(kind, short, es, j, e, t, c);
  }

  // ---- Orders come back as they were sent ----

  /**
   * The native order of an accepted request, reported back by the exchange with
   * its own columns, resolves to the symbol and the side that were asked for.
   */
  lemma OrderComesBack(short: ShortNames, o: OrderSession.NativeOrder, text: string, direction: string, price: real,
      volume: int)
    requires OrderSession.IsSide(direction) && Symbols.Parse(text).Some?
    requires OrderSession.OrdersNatively(o, Symbols.Parse(text).value, direction, price, volume)
    ensures var r := Resolve(short, Contract(o.exchange, o.commodityType, o.commodity, o.contract));
            r.Known? && Symbols.Parse(r.symbol) == Symbols.Parse(text)
    ensures SideOf(o.side, direction)
  {
    var info := Symbols.Parse(text).value;
    Symbols.ParsedIsWellFormed(text);
    Symbols.ParseCanonical(text);
    assert Upper(info.exchangeNo) == info.exchangeNo && Upper(info.commodityType) == info.commodityType;
    assert Upper(info.commodityNo) == info.commodityNo && Upper(info.contractNo) == info.contractNo;
  }

  // ---- Which short names are known ----

  /** The contract an event teaches: one named elsewhere, or a row that names all four columns. */
  function Lesson(e: Event): Option<Symbols.Symbol> {
    match e
    case Named(text) => Symbols.Parse(text)
    case Arrive(row) => if row.ok && row.data.Some? then FullName(row.data.value.contract) else None
    case Push(data, _) => if data.Some? then FullName(data.value.contract) else None
    case _ => None
  }

  function FullName(c: Contract): Option<Symbols.Symbol> {
    if c.exchange == "" || c.commodityType == "" || c.commodity == "" || c.contract == "" then None
    else
      var e, t, d, n := Upper(c.exchange), Upper(c.commodityType), Upper(c.commodity), Upper(c.contract);
      Symbols.Parse(e + ":" + t + ":" + d + ":" + n)
  }

  /** The short name of a contract leaves its commodity type out. */
  function ShortOf(s: Symbols.Symbol): (string, string, string) {
    (s.exchangeNo, s.commodityNo, s.contractNo)
  }

  function FullText(s: Symbols.Symbol): string {
    s.exchangeNo + ":" + s.commodityType + ":" + s.commodityNo + ":" + s.contractNo
  }

  lemma RowTeaches(short: ShortNames, c: Contract)
    ensures var r := Resolve(short, c);
            (if r.Known? then r.short else short) ==
              match FullName(c)
              case Some(s) => short[ShortOf(s) := FullText(s)]
              case None => short
  {
  }

  lemma StepTeaches(kind: Kind, c: Cache, e: Event)
    ensures Step(kind, c, e).short ==
              match Lesson(e)
              case Some(s) => c.short[ShortOf(s) := FullText(s)]
              case None => c.short
  {
    match e
    case Arrive(row) =>
      if row.ok && row.data.Some? { UpdateTeaches(kind, c, row.data.value, row.fault); }
      AnswerTeaches(kind, c, row);
    case Push(data, fault) => if data.Some? { UpdateTeaches(kind, c, data.value, fault); }
    case _ =>
  }

  lemma UpdateTeaches(kind: Kind, c: Cache, data: Data, fault: Fault)
    ensures Updated(kind, c, data, fault).short ==
              match FullName(data.contract)
              case Some(s) => c.short[ShortOf(s) := FullText(s)]
              case None => c.short
  {
    RowTeaches(c.short, data.contract);
  }

  lemma AnswerTeaches(kind: Kind, c: Cache, row: Row)
    ensures Answered(kind, c, row).short ==
              if row.ok && row.data.Some? then Updated(kind, c, row.data.value, row.fault).short else c.short
  {
  }

  /** Event i is the latest to teach this short name. */
  ghost predicate LatestLesson(es: seq<Event>, i: int, k: (string, string, string)) {
    && 0 <= i < |es| && Lesson(es[i]).Some? && ShortOf(Lesson(es[i]).value) == k
    && forall j :: i < j < |es| && Lesson(es[j]).Some? ==> ShortOf(Lesson(es[j]).value) != k
  }

  /**
   * A short name stands for the latest contract taught under it, whichever rows,
   * pushes, quotes or subscriptions taught it; one never taught is as it was at
   * the start. Refreshes, errors and resets forget no name.
   */
  lemma {:induction false} NamesLearned(kind: Kind, short: ShortNames, es: seq<Event>, k: (string, string, string))
    ensures forall i :: LatestLesson(es, i, k) ==>
              var names := After(kind, short, es).short; k in names && names[k] == FullText(Lesson(es[i]).value)
    ensures (forall i :: !LatestLesson(es, i, k)) ==>
              var names := After(kind, short, es).short;
              (k in names <==> k in short) && (k in names ==> names[k] == short[k])
  {
    if es != [] {
      var n := |es| - 1;
      NamesLearned(kind, short, es[..n], k);
      StepTeaches(kind, After(kind, short, es[..n]), es[n]);
      if Lesson(es[n]).Some? && ShortOf(Lesson(es[n]).value) == k {
        assert LatestLesson(es, n, k);
      } else {
        forall i | 0 <= i < n ensures LatestLesson(es, i, k) <==> LatestLesson(es[..n], i, k) { LessonStep(es, i, k); }
      }
    }
  }

  lemma LessonStep(es: seq<Event>, i: nat, k: (string, string, string))
    requires i < |es| - 1
    requires var last := Lesson(es[|es| - 1]); last.Some? ==> ShortOf(last.value) != k
    ensures LatestLesson(es, i, k) <==> LatestLesson(es[..|es| - 1], i, k)
  {
    var n := |es| - 1;
    forall j | i < j < n ensures es[..n][j] == es[j] {}
    if LatestLesson(es[..n], i, k) {
      forall j | i < j < |es| && Lesson(es[j]).Some? ensures ShortOf(Lesson(es[j]).value) != k {
        if j < n { assert Lesson(es[..n][j]).Some?; }
      }
    }
  }

  // ---- What a refresh reports ----

  /** An error row leaves an error for the waiting query; starting a refresh or collecting its answer forgets it. */
  function ErrorTurn(e: Event): Turn {
    Turn(e.Arrive? && !e.row.ok, e.Begin? || e == Finish(false))
  }

  function ErrorTurns(es: seq<Event>): (r: seq<Turn>)
    ensures |r| == |es|
  {
    if es == [] then [] else ErrorTurns(es[..|es| - 1]) + [ErrorTurn(es[|es| - 1])]
  }

  lemma StepFailed(kind: Kind, c: Cache, e: Event)
    ensures Step(kind, c, e).failed <==> ErrorTurn(e).sets || (c.failed && !ErrorTurn(e).clears)
  {
    match e
    case Arrive(row) => AnswerKeepsError(kind, c, row);
    case Push(data, fault) => PushKeepsError(kind, c, data, fault);
    case _ =>
  }

  lemma PushKeepsError(kind: Kind, c: Cache, data: Option<Data>, fault: Fault)
    ensures Pushed(kind, c, data, fault).failed == c.failed
  {
  }

  lemma AnswerKeepsError(kind: Kind, c: Cache, row: Row)
    ensures Answered(kind, c, row).failed <==> c.failed || !row.ok
  {
    PushKeepsError(kind, c, row.data, row.fault);
  }

  lemma {:induction false} ErrorsAreKept(kind: Kind, short: ShortNames, es: seq<Event>)
    ensures After(kind, short, es).failed <==> Latched(ErrorTurns(es))
  {
    if es != [] {
      var n := |es| - 1;
      ErrorsAreKept(kind, short, es[..n]);
      StepFailed(kind, After(kind, short, es[..n]), es[n]);
      LatchedSnoc(ErrorTurns(es[..n]), ErrorTurn(es[n]));
    }
  }

  /**
   * A query that times out reports that; one that is released reports an error
   * exactly when an error row came since the refresh started, and otherwise the contents.
   */
  lemma RefreshReports(kind: Kind, short: ShortNames, es: seq<Event>)
    ensures ReplyOf(After(kind, short, es), true) == Err(TimedOut)
    ensures ReplyOf(After(kind, short, es), false) ==
              if Latched(ErrorTurns(es)) then Err(QueryFailed) else Ok(After(kind, short, es).entries)
  {
    ErrorsAreKept(kind, short, es);
  }
}
