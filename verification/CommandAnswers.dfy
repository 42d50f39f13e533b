/** What the order commands and the order callback do and answer, read off the states around them. */
module CommandAnswers {
  import opened Prelude
  import opened Text
  import opened OrderStore
  import opened OrderLifecycle
  import opened SubmissionSafety
  import opened OrderIndexes
  import opened CancelSafety

  // ---- place_order ----

  /** The exchange took the order under this native id. */
  predicate Took(o: InsertOutcome, native: string) {
    o.Answered? && o.errorId == 0 && o.orderId == native && native != ""
  }

  /** The message kept when it did not. */
  predicate Explains(o: InsertOutcome, message: string) {
    match o
    case Raised(m) => message == m
    case Answered(e, id) =>
      if e == 0 then id == "" && message == "TAP insertOrder returned an empty ClientOrderNo"
      else |message| > 24 && message[..24] == "TAP insertOrder failed: " && IntValue(message[24..]) == Some(e)
  }

  /** A repeated key: nothing is sent or stored, the reply says what the store holds. */
  ghost predicate Repeats(w: World, w': World, k: Key, reply: Reply) {
    && k in w.rows && w'.rows == w.rows && w'.log.inserts == w.log.inserts
    && var r := w.rows[k]; reply == Duplicate(k, r.native, r.native == "", r.status, r.message)
  }

  /** A new key is sent once; the record and the reply hold the native id or the reason. */
  ghost predicate Submits(w: World, w': World, k: Key, symbol: string, o: InsertOutcome, reply: Reply) {
    && k !in w.rows && w'.log.inserts == w.log.inserts + [k]
    && w'.rows.Keys == w.rows.Keys + {k} && (forall l :: l in w.rows ==> w'.rows[l] == w.rows[l])
    && var r := w'.rows[k];
       && r.symbol == symbol && r.orderNo == "" && r.serverFlag == ""
       && match reply
          case Placed(l, n) =>
            && l == k && Took(o, n) && r.native == n && r.status.Accepted? && r.message == ""
            && n in w'.session.identityByNative && w'.session.identityByNative[n] == Identity(k, symbol)
            && k in w'.session.nativeByIdentity && w'.session.nativeByIdentity[k] == n
          case Refusal(l, m) =>
            && l == k && Explains(o, m) && r.native == "" && r.status.SubmitFailed? && r.message == m
            && w'.session == w.session
          case Duplicate(_, _, _, _, _) => false
  }

  /** What a whole `place_order` leaves and answers, for a new key and for a repeated one. */
  lemma PlaceAnswers(w: World, k: Key, symbol: string, o: InsertOutcome)
    ensures var w' := RunCall(w, Call(k, symbol, Looking), o);
            && |w'.log.replies| == |w.log.replies| + 1 && w.log.replies < w'.log.replies
            && var reply := w'.log.replies[|w.log.replies|];
               && (Repeats(w, w', k, reply) || Submits(w, w', k, symbol, o, reply))
               && (k in w.rows <==> reply.Duplicate?)
               && (reply.Placed? <==> k !in w.rows && exists n :: Took(o, n))
  {
    RefusalExplains(o);
    if k in w.rows {
      RepeatAnswers(w, k, symbol, o);
    } else if Refused(o).Some? {
      RefusedAnswers(w, k, symbol, o);
    } else {
      assert Took(o, o.orderId);
      AcceptedAnswers(w, k, symbol, o.orderId);
    }
  }

  lemma RepeatAnswers(w: World, k: Key, symbol: string, o: InsertOutcome)
    requires k in w.rows
    ensures var w' := RunCall(w, Call(k, symbol, Looking), o);
            && |w'.log.replies| == |w.log.replies| + 1 && w.log.replies < w'.log.replies
            && Repeats(w, w', k, w'.log.replies[|w.log.replies|])
  {
  }

  lemma RefusedAnswers(w: World, k: Key, symbol: string, o: InsertOutcome)
    requires k !in w.rows && Refused(o).Some?
    ensures var w' := RunCall(w, Call(k, symbol, Looking), o);
            && |w'.log.replies| == |w.log.replies| + 1 && w.log.replies < w'.log.replies
            && w'.log.replies[|w.log.replies|].Refusal?
            && Submits(w, w', k, symbol, o, w'.log.replies[|w.log.replies|])
  {
    CallRefused(w, k, symbol, o);
    RefusalExplains(o);
  }

  lemma AcceptedAnswers(w: World, k: Key, symbol: string, n: string)
    requires k !in w.rows && n != ""
    ensures var w', o := RunCall(w, Call(k, symbol, Looking), Answered(0, n)), Answered(0, n);
            && |w'.log.replies| == |w.log.replies| + 1 && w.log.replies < w'.log.replies
            && w'.log.replies[|w.log.replies|].Placed?
            && Submits(w, w', k, symbol, o, w'.log.replies[|w.log.replies|])
  {
    CallAccepted(w, k, symbol, n);
  }

  lemma RefusalExplains(o: InsertOutcome)
    ensures Refused(o).None? <==> exists n :: Took(o, n)
    ensures Refused(o).Some? ==> Explains(o, Refused(o).value)
  {
    if o.Answered? {
      if o.errorId != 0 {
        var m := Refused(o).value;
        IntTextValue(o.errorId);
        assert m[24..] == IntText(o.errorId);
      } else {
        assert Took(o, o.orderId) <==> o.orderId != "";
      }
    }
  }

  // ---- cancel_order ----

  /** The native id the session or else the store knows the order by. */
  function NativeIdOf(w: World, k: Key): string {
    if k in w.session.nativeByIdentity && w.session.nativeByIdentity[k] != "" then w.session.nativeByIdentity[k]
    else if k in w.rows then w.rows[k].native
    else ""
  }

  /** One native cancel of `n` was sent, with the pair the session holds for it. */
  predicate SentOne(w: World, w': World, n: string) {
    && n in w'.session.orderNoByNative && n in w'.session.serverFlagByNative
    && |w'.log.cancels| == |w.log.cancels| + 1 && w.log.cancels < w'.log.cancels
    && var c := w'.log.cancels[|w.log.cancels|];
       c.native == n && c.orderNo == w'.session.orderNoByNative[n] && c.serverFlag == w'.session.serverFlagByNative[n]
  }

  /**
   * The reply against the states before and after: refused exactly when nobody
   * knows a native id, pending exactly when the order waits and nothing was sent,
   * sent exactly when one cancel for it was.
   */
  ghost predicate CancelAnswered(w: World, w': World, n: string, reply: CancelReply) {
    && w'.rows == w.rows && w'.trades == w.trades && w'.log.inserts == w.log.inserts
    && (reply.Unavailable? <==> n == "")
    && (reply.Unavailable? ==>
          w'.log.cancels == w.log.cancels && w'.session.pendingCancels == w.session.pendingCancels)
    && (reply.CancelPending? <==>
          n != "" && n in w'.session.pendingCancels && w'.log.cancels == w.log.cancels)
    && (reply.CancelPending? ==> w'.session.pendingCancels == w.session.pendingCancels + {n})
    && (reply.CancelSent? <==> n != "" && SentOne(w, w', n))
    && (reply.CancelSent? ==> w'.session.pendingCancels == w.session.pendingCancels)
  }

  lemma CancelAnswers(w: World, k: Key)
    requires w.session.orderNoByNative.Keys == w.session.serverFlagByNative.Keys
    ensures var (w', reply) := CancelOrder(w, k); CancelAnswered(w, w', NativeIdOf(w, k), reply)
    ensures var (w', reply) := CancelOrder(w, k);
            reply.CancelPending? <==> NativeIdOf(w, k) != "" && NativeIdOf(w, k) !in w'.session.orderNoByNative
  {
    var (s, n) := CancelTarget(w, k);
    assert n == NativeIdOf(w, k) && s.pendingCancels == w.session.pendingCancels;
  }

  /** In every reachable state the native id in question is the one stored with the order. */
  lemma CancelAnswersInRuns(env: Env, events: seq<Event>, st: State, k: Key)
    requires Proper(env) && Honestly(env, events, st) && st.up
    ensures var stored := if k in st.world.rows then st.world.rows[k].native else "";
            var (w', reply) := CancelOrder(st.world, k);
            CancelAnswered(st.world, w', stored, reply)
  {
    RunIndexes(env, events, st, false);
    CancelAnswers(st.world, k);
    if k in st.world.session.nativeByIdentity {
      assert st.world.session.identityByNative[st.world.session.nativeByIdentity[k]].key == k;
    }
  }

  // ---- The order callback ----

  /** The status of an order whose callback carries this state letter, with an error or without. */
  predicate StatusShows(state: string, error: bool, s: Status) {
    && (s.Rejected? <==> error || state == "9")
    && (s.Traded? <==> !error && state == "4")
    && (s.PartTraded? <==> !error && state == "3")
    && (s.Submitted? <==> !error && state in ["0", "1", "2"])
    && (s.Cancelled? <==> !error && state in ["5", "6"])
    && (s.Unknown? <==> !error && state !in ["0", "1", "2", "3", "4", "5", "6", "9"])
  }

  /** A record after an update: what the update leaves empty stays, the rest is taken over. */
  predicate Refreshed(r: Record, r': Record, orderNo: string, serverFlag: string) {
    && r'.native == r.native && r'.symbol == r.symbol && r'.message == r.message
    && (if orderNo == "" then r'.orderNo == r.orderNo else r'.orderNo == orderNo)
    && (if serverFlag == "" then r'.serverFlag == r.serverFlag else r'.serverFlag == serverFlag)
  }

  /**
   * A resolved update touches exactly one record that holds its native id, and
   * none if there is none or the update names none; an unresolved one touches none.
   */
  ghost predicate UpdateStores(rows: map<Key, Record>, rows': map<Key, Record>, u: OrderUpdate) {
    && rows'.Keys == rows.Keys
    && if u.resolved && u.native != "" && exists k :: k in rows && rows[k].native == u.native
       then exists k ::
              && k in rows && rows[k].native == u.native
              && Refreshed(rows[k], rows'[k], u.orderNo, u.serverFlag) && rows'[k].status == u.status
              && forall l :: l in rows && l != k ==> rows'[l] == rows[l]
       else rows' == rows
  }

  lemma UpdateAnswers(w: World, u: OrderUpdate, found: Option<Key>)
    requires u.native != "" ==> Answers(w.rows, ByNative(u.native), found)
    ensures UpdateStores(w.rows, UpdateOrder(w, u, found).rows, u)
  {
    if u.resolved && u.native != "" && found.Some? {
      var k, rows' := found.value, UpdateOrder(w, u, found).rows;
      assert k in w.rows && w.rows[k].native == u.native;
      assert Refreshed(w.rows[k], rows'[k], u.orderNo, u.serverFlag);
    }
  }
}
