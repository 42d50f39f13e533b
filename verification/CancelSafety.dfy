/** Deferred cancels: who asked, what is sent, and that each is sent once. */
module CancelSafety {
  import opened Prelude
  import opened OrderStore
  import opened OrderLifecycle
  import opened SubmissionSafety
  import opened OrderIndexes

  // ---- Every native cancel was asked for and carries its order's own pair ----

  ghost predicate Asked(w: World, n: string) {
    n != "" && exists k :: k in w.log.asked && k in w.rows && w.rows[k].native == n
  }

  ghost predicate CancelsOk(env: Env, w: World) {
    && (forall i :: 0 <= i < |w.log.cancels| ==>
          var c := w.log.cancels[i]; Asked(w, c.native) && (c.orderNo, c.serverFlag) == env.pair(c.native))
    && forall n :: n in w.session.pendingCancels ==> Asked(w, n)
  }

  lemma AskedKeeps(w: World, w': World, n: string)
    requires Asked(w, n) && Keeps(w.rows, w'.rows) && w.log.asked <= w'.log.asked
    ensures Asked(w', n)
  {
    var k :| k in w.log.asked && k in w.rows && w.rows[k].native == n;
    assert k in w'.log.asked && k in w'.rows && w'.rows[k].native == n;
  }

  lemma TargetNative(env: Env, st: State, k: Key)
    requires Proper(env) && Sound(st) && Indexes(env, st, false) && st.up
    ensures var (s, n) := CancelTarget(st.world, k);
            && Numbered(env, s) && s.pendingCancels == st.world.session.pendingCancels
            && s.orderNoByNative.Keys == st.world.session.orderNoByNative.Keys
            && (n != "" ==> k in st.world.rows && st.world.rows[k].native == n)
  {
    if k in st.world.rows {
      HydrateStep(env, st, k, false);
      assert CoversRow(st.world.session, st.calls, k, st.world.rows[k], false);
    }
  }

  /** What a cancel command does to the waiting set and to the native cancels. */
  lemma CancelEffect(w: World, k: Key, s: Session, n: string)
    requires CancelTarget(w, k) == (s, n) && s.orderNoByNative.Keys == s.serverFlagByNative.Keys
    ensures var w' := CancelOrder(w, k).0;
            var sent := n != "" && n in s.orderNoByNative;
            && w'.rows == w.rows
            && w'.log.asked == w.log.asked + (if n != "" then {k} else {})
            && w'.log.cancels == w.log.cancels + (
                 if sent then [CancelCall(n, s.orderNoByNative[n], s.serverFlagByNative[n], false, w.log.crashes)]
                 else [])
            && w'.session.pendingCancels == s.pendingCancels + (if n != "" && !sent then {n} else {})
  {
  }

  lemma CancelKeepsOk(env: Env, st: State, k: Key)
    requires Proper(env) && Sound(st) && Indexes(env, st, false) && st.up && CancelsOk(env, st.world)
    ensures CancelsOk(env, CancelOrder(st.world, k).0)
  {
    var w, w' := st.world, CancelOrder(st.world, k).0;
    TargetNative(env, st, k);
    var (s, n) := CancelTarget(w, k);
    CancelEffect(w, k, s, n);
    AskedStays(env, w, w', k, s, n);
  }

  lemma AskedStays(env: Env, w: World, w': World, k: Key, s: Session, n: string)
    requires CancelsOk(env, w) && w'.rows == w.rows && Numbered(env, s)
    requires n != "" ==> k in w.rows && w.rows[k].native == n
    requires w'.log.asked == w.log.asked + if n != "" then {k} else {}
    requires w'.log.cancels == w.log.cancels
               || (n in s.orderNoByNative
                   && w'.log.cancels == w.log.cancels +
                        [CancelCall(n, s.orderNoByNative[n], s.serverFlagByNative[n], false, w.log.crashes)])
    requires w'.session.pendingCancels <= w.session.pendingCancels + if n != "" then {n} else {}
    ensures CancelsOk(env, w')
  {
    forall m | Asked(w, m) ensures Asked(w', m) { AskedKeeps(w, w', m); }
    if n != "" {
      assert k in w'.log.asked && k in w'.rows && w'.rows[k].native == n;
      assert Asked(w', n);
    }
  }

  predicate Due(w: World, u: OrderUpdate) {
    u.native in w.session.pendingCancels && u.orderNo != "" && u.resolved
  }

  lemma UpdateEffect(w: World, u: OrderUpdate, found: Option<Key>, s: Session)
    requires s == Indexed(w, u, found) && s.pendingCancels == w.session.pendingCancels
    requires Due(w, u) ==> u.native in s.orderNoByNative && u.native in s.serverFlagByNative
                           && s.orderNoByNative[u.native] == u.orderNo && s.serverFlagByNative[u.native] == u.serverFlag
    ensures var w' := UpdateOrder(w, u, found);
            && w'.log == w.log.(cancels := w.log.cancels +
                 if Due(w, u) then [CancelCall(u.native, u.orderNo, u.serverFlag, true, w.log.crashes)] else [])
            && w'.session == s.(pendingCancels := w.session.pendingCancels - if Due(w, u) then {u.native} else {})
  {
  }

  /** What an order update does to the waiting set and to the native cancels. */
  lemma UpdateShape(env: Env, st: State, u: OrderUpdate, found: Option<Key>)
    requires Proper(env) && Sound(st) && Indexes(env, st, false) && Expected(env, st, OrderChanged(u, found))
    requires forall n :: n in st.world.session.pendingCancels ==> n != ""
    ensures var w, w' := st.world, UpdateOrder(st.world, u, found);
            && w'.log == w.log.(cancels := w.log.cancels +
                 if Due(w, u) then [CancelCall(u.native, u.orderNo, u.serverFlag, true, w.log.crashes)] else [])
            && w'.session ==
               Indexed(w, u, found).(pendingCancels := w.session.pendingCancels - if Due(w, u) then {u.native} else {})
            && (Due(w, u) ==> (u.orderNo, u.serverFlag) == env.pair(u.native))
  {
    UpdateSession(env, st, u, found, false);
    UpdateEffect(st.world, u, found, Indexed(st.world, u, found));
  }

  lemma UpdateKeepsOk(env: Env, st: State, u: OrderUpdate, found: Option<Key>)
    requires Proper(env) && Sound(st) && Indexes(env, st, false) && CancelsOk(env, st.world)
    requires Expected(env, st, OrderChanged(u, found))
    ensures CancelsOk(env, UpdateOrder(st.world, u, found))
  {
    var w, w' := st.world, UpdateOrder(st.world, u, found);
    UpdateShape(env, st, u, found);
    UpdateKeeps(st, u, found);
    forall m | Asked(w, m) ensures Asked(w', m) { AskedKeeps(w, w', m); }
  }

  /** The other events send no cancel and park none. */
  predicate NoCancel(e: Event) {
    !e.Cancel? && !e.OrderChanged?
  }

  lemma PlaceNoCancel(w: World, c: Call, o: InsertOutcome)
    ensures var w' := PlaceStep(w, c, o).0;
            && w'.log.cancels == w.log.cancels && w'.log.asked == w.log.asked && w'.log.deferred == w.log.deferred
            && w'.log.crashes == w.log.crashes && w'.session.pendingCancels == w.session.pendingCancels
  {
  }

  lemma FillNoCancel(env: Env, w: World, f: Fill, found: Option<Key>, gap: nat)
    ensures var w' := RecordFill(env.digest, w, f, found, gap).0;
            && w'.log == w.log && w'.session.pendingCancels == w.session.pendingCancels && w'.rows == w.rows
            && w'.session == Attribute(w, f.orderNo, f.serverFlag, found).session
  {
  }

  lemma NoCancelStep(env: Env, st: State, e: Event)
    requires Enabled(env, st, e) && NoCancel(e)
    ensures var w, w' := st.world, Step(env, st, e).world;
            && w'.log.cancels == w.log.cancels && w'.log.asked == w.log.asked
            && w'.session.pendingCancels == (if e.Crash? || e.Restart? then {} else w.session.pendingCancels)
            && w'.log.deferred == w.log.deferred
            && w'.log.crashes == w.log.crashes + (if e.Crash? then 1 else 0)
  {
    if e.Restart? { RestoredPending(e.order, st.world.rows); }
    else if e.Place? { PlaceNoCancel(st.world, st.calls[e.id], e.outcome); }
    else if e.Filled? { FillNoCancel(env, st.world, e.fill, e.found, e.gap); }
  }

  lemma {:induction false} RestoredPending(order: seq<Key>, rows: map<Key, Record>)
    requires forall k :: k in order ==> k in rows
    ensures HydrateAll(order, rows).pendingCancels == {}
  {
    if order != [] { RestoredPending(order[..|order| - 1], rows); }
  }

  lemma {:induction false} RunCancels(env: Env, events: seq<Event>, st: State)
    requires Proper(env) && Honestly(env, events, st)
    ensures CancelsOk(env, st.world)
  {
    if events != [] {
      var n := |events| - 1;
      var e := events[n];
      var before := HonestStep(env, events, st);
      RunCancels(env, events[..n], before);
      RunIndexes(env, events[..n], before, false);
      if e.Cancel? { CancelKeepsOk(env, before, e.key); }
      else if e.OrderChanged? { UpdateKeepsOk(env, before, e.update, e.found); }
      else {
        NoCancelStep(env, before, e);
        StepKeeps(env, before, e);
        forall m | Asked(before.world, m) ensures Asked(st.world, m) { AskedKeeps(before.world, st.world, m); }
      }
    }
  }

  /** In every run each native cancel names the order of a client's request by that order's own pair. */
  lemma CancelsAreRequested(env: Env, events: seq<Event>, st: State, i: nat)
    requires Proper(env) && Honestly(env, events, st) && i < |st.world.log.cancels|
    ensures var c := st.world.log.cancels[i];
            && (c.orderNo, c.serverFlag) == env.pair(c.native)
            && exists k :: k in st.world.log.asked && k in st.world.rows && st.world.rows[k].native == c.native != ""
  {
    RunCancels(env, events, st);
    var c := st.world.log.cancels[i];
    assert Asked(st.world, c.native);
  }

  // ---- A parked cancel is sent once, when the order number arrives ----

  /** How often a parked cancel of this native id was sent in this session. */
  function Sends(calls: seq<CancelCall>, session: nat, n: string): nat {
    if calls == [] then 0
    else
      var c := calls[|calls| - 1];
      Sends(calls[..|calls| - 1], session, n) + if c.parked && c.session == session && c.native == n then 1 else 0
  }

  lemma SendsAppend(calls: seq<CancelCall>, c: CancelCall, session: nat, n: string)
    ensures Sends(calls + [c], session, n) ==
              Sends(calls, session, n) + if c.parked && c.session == session && c.native == n then 1 else 0
  {
    assert (calls + [c])[..|calls|] == calls;
  }

  lemma {:induction false} SendsNone(calls: seq<CancelCall>, session: nat, n: string)
    requires forall i :: 0 <= i < |calls| ==> calls[i].session < session
    ensures Sends(calls, session, n) == 0
  {
    if calls != [] { SendsNone(calls[..|calls| - 1], session, n); }
  }

  /** A parked cancel of the current session waits, or was sent once, as its order number is unknown or known. */
  ghost predicate ParkedOk(w: World, n: string) {
    var sends := Sends(w.log.cancels, w.log.crashes, n);
    && (n in w.session.pendingCancels ==> n !in w.session.orderNoByNative)
    && (sends > 0 ==> n in w.session.orderNoByNative)
    && sends <= 1
    && ((w.log.crashes, n) in w.log.deferred <==> n in w.session.pendingCancels || sends == 1)
  }

  /** Every parked cancel and every call belongs to this session or an earlier one. */
  ghost predicate Dated(w: World) {
    && (forall i :: 0 <= i < |w.log.cancels| ==> w.log.cancels[i].session <= w.log.crashes)
    && forall d :: d in w.log.deferred ==> d.0 <= w.log.crashes
  }

  ghost predicate Parked(w: World) {
    Dated(w) && forall n :: ParkedOk(w, n)
  }

  lemma ParkedAfterCancel(w: World, k: Key, s: Session, n: string)
    requires Parked(w) && CancelTarget(w, k) == (s, n)
    requires s.pendingCancels == w.session.pendingCancels
    requires s.orderNoByNative.Keys == w.session.orderNoByNative.Keys == s.serverFlagByNative.Keys
    ensures Parked(CancelOrder(w, k).0)
  {
    var w' := CancelOrder(w, k).0;
    forall m ensures ParkedOk(w', m) {
      assert ParkedOk(w, m);
      if n != "" && n in s.orderNoByNative {
        var sent := CancelCall(n, s.orderNoByNative[n], s.serverFlagByNative[n], false, w.log.crashes);
        SendsAppend(w.log.cancels, sent, w.log.crashes, m);
      } else {
        assert w'.log.cancels == w.log.cancels;
      }
    }
  }

  lemma CancelParks(env: Env, st: State, k: Key)
    requires Proper(env) && Sound(st) && Indexes(env, st, false) && st.up && Parked(st.world)
    ensures Parked(CancelOrder(st.world, k).0)
  {
    TargetNative(env, st, k);
    var (s, n) := CancelTarget(st.world, k);
    ParkedAfterCancel(st.world, k, s, n);
  }

  lemma UpdateNumbers(env: Env, st: State, u: OrderUpdate, found: Option<Key>)
    requires Covers(st.world.rows, st.world.session, st.calls, false) && Enabled(env, st, OrderChanged(u, found))
    ensures var s, s0 := Indexed(st.world, u, found), st.world.session;
            && s0.orderNoByNative.Keys <= s.orderNoByNative.Keys
            && (forall n :: n in s.orderNoByNative && n !in s0.orderNoByNative ==> n == u.native && u.orderNo != "")
            && (u.native != "" && u.orderNo != "" ==> u.native in s.orderNoByNative)
  {
    if found.Some? && found.value in st.world.rows {
      assert CoversRow(st.world.session, st.calls, found.value, st.world.rows[found.value], false);
    }
  }

  lemma ParkedAfter(w: World, w': World, s: Session, u: OrderUpdate)
    requires Parked(w) && (Due(w, u) || u.native !in w.session.pendingCancels || u.orderNo == "")
    requires w'.log == w.log.(cancels := w.log.cancels +
               if Due(w, u) then [CancelCall(u.native, u.orderNo, u.serverFlag, true, w.log.crashes)] else [])
    requires w'.session == s.(pendingCancels := w.session.pendingCancels - if Due(w, u) then {u.native} else {})
    requires w.session.orderNoByNative.Keys <= s.orderNoByNative.Keys
    requires forall n :: n in s.orderNoByNative && n !in w.session.orderNoByNative ==> n == u.native && u.orderNo != ""
    requires Due(w, u) ==> u.native in s.orderNoByNative
    ensures Parked(w')
  {
    forall m ensures ParkedOk(w', m) {
      assert ParkedOk(w, m);
      if Due(w, u) {
        var sent := CancelCall(u.native, u.orderNo, u.serverFlag, true, w.log.crashes);
        SendsAppend(w.log.cancels, sent, w.log.crashes, m);
      } else {
        assert w'.log.cancels == w.log.cancels;
      }
    }
  }

  /**
   * What one order update does to a parked cancel. It is sent exactly when the
   * update carries the order number and resolves, and the waiting set stays
   * disjoint from the numbered orders exactly when no parked order's number
   * arrives in an update that does not resolve.
   */
  lemma UpdateReleases(env: Env, st: State, u: OrderUpdate, found: Option<Key>)
    requires Proper(env) && Sound(st) && Indexes(env, st, false) && Parked(st.world) && CancelsOk(env, st.world)
    requires Expected(env, st, OrderChanged(u, found))
    ensures var w, w' := st.world, UpdateOrder(st.world, u, found);
            var arrived := u.native in w.session.pendingCancels && u.orderNo != "";
            && w'.log.cancels == w.log.cancels + (
                 if arrived && u.resolved then [CancelCall(u.native, u.orderNo, u.serverFlag, true, w.log.crashes)]
                 else [])
            && (forall n :: n in w'.session.pendingCancels <==>
                 n in w.session.pendingCancels && !(arrived && u.resolved && n == u.native))
            && ((forall n :: n in w'.session.pendingCancels ==> n !in w'.session.orderNoByNative) <==>
                 !arrived || u.resolved)
            && (!arrived || u.resolved ==> Parked(w'))
  {
    UpdateShape(env, st, u, found);
    UpdateNumbers(env, st, u, found);
    var w, w' := st.world, UpdateOrder(st.world, u, found);
    if u.native in w.session.pendingCancels && u.orderNo != "" && !u.resolved {
      assert Asked(w, u.native);
      assert u.native in w'.session.pendingCancels && u.native in w'.session.orderNoByNative;
    } else {
      if Due(w, u) { assert Asked(w, u.native); }
      ParkedAfter(w, w', Indexed(w, u, found), u);
      forall n | n in w'.session.pendingCancels ensures n !in w'.session.orderNoByNative { assert ParkedOk(w', n); }
    }
  }

  lemma HydrateNumbers(st: State, k: Key)
    requires k in st.world.rows && Covers(st.world.rows, st.world.session, st.calls, false)
    ensures Hydrate(st.world.session, k, st.world.rows[k]).orderNoByNative.Keys == st.world.session.orderNoByNative.Keys
  {
    assert CoversRow(st.world.session, st.calls, k, st.world.rows[k], false);
  }

  /** Hydrating a stored order adds no order number the session did not have. */
  lemma SessionNumbers(env: Env, st: State, e: Event)
    requires Covers(st.world.rows, st.world.session, st.calls, false)
    requires Enabled(env, st, e) && NoCancel(e) && !e.Crash? && !e.Restart?
    ensures Step(env, st, e).world.session.orderNoByNative.Keys == st.world.session.orderNoByNative.Keys
  {
    if e.Place? {
      var c := st.calls[e.id];
      if c.key in st.world.rows { HydrateNumbers(st, c.key); }
    } else if e.Filled? {
      if e.found.Some? && e.found.value in st.world.rows { HydrateNumbers(st, e.found.value); }
      FillNoCancel(env, st.world, e.fill, e.found, e.gap);
    }
  }

  /** Every order update of the run named a known contract and side. */
  predicate Resolved(events: seq<Event>) {
    forall i :: 0 <= i < |events| && events[i].OrderChanged? ==> events[i].update.resolved
  }

  /** A session that is down holds no parked cancel and no order number. */
  ghost predicate Idle(st: State) {
    !st.up ==>
      && st.world.session.pendingCancels == {}
      && forall n :: Sends(st.world.log.cancels, st.world.log.crashes, n) == 0
  }

  lemma CrashParks(st: State, w': World)
    requires Dated(st.world) && w'.session.pendingCancels == {}
    requires w'.log.cancels == st.world.log.cancels && w'.log.deferred == st.world.log.deferred
    requires w'.log.crashes == st.world.log.crashes + 1
    ensures Parked(w') && forall n :: Sends(w'.log.cancels, w'.log.crashes, n) == 0
  {
    forall n ensures ParkedOk(w', n) && Sends(w'.log.cancels, w'.log.crashes, n) == 0 {
      SendsNone(w'.log.cancels, w'.log.crashes, n);
    }
  }

  lemma QuietParks(env: Env, st: State, e: Event)
    requires Proper(env) && Sound(st) && Indexes(env, st, false) && Expected(env, st, e) && NoCancel(e)
    requires Parked(st.world) && Idle(st)
    ensures Parked(Step(env, st, e).world) && Idle(Step(env, st, e))
  {
    var w' := Step(env, st, e).world;
    NoCancelStep(env, st, e);
    if e.Crash? {
      CrashParks(st, w');
    } else {
      if !e.Restart? { SessionNumbers(env, st, e); }
      forall n ensures ParkedOk(w', n) { assert ParkedOk(st.world, n); }
    }
  }

  lemma {:induction false} RunParks(env: Env, events: seq<Event>, st: State)
    requires Proper(env) && Honestly(env, events, st) && Resolved(events)
    ensures Parked(st.world) && Idle(st)
  {
    if events != [] {
      var n := |events| - 1;
      var e := events[n];
      var before := HonestStep(env, events, st);
      RunParks(env, events[..n], before);
      RunIndexes(env, events[..n], before, false);
      RunCancels(env, events[..n], before);
      if e.Cancel? { CancelParks(env, before, e.key); }
      else if e.OrderChanged? { UpdateReleases(env, before, e.update, e.found); }
      else { QuietParks(env, before, e); }
    }
  }

  /** Some crash of the run found this cancel, parked in this session, still waiting. */
  ghost predicate LostInCrash(env: Env, events: seq<Event>, session: nat, n: string) {
    exists c :: 0 <= c < |events| && CrashFinds(env, events, c, session, n)
  }

  ghost predicate CrashFinds(env: Env, events: seq<Event>, c: nat, session: nat, n: string)
    requires c < |events|
  {
    && events[c].Crash?
    && var before := Run(env, START, events[..c]);
       before.Some? && before.value.world.log.crashes == session && n in before.value.world.session.pendingCancels
  }

  lemma LostStep(env: Env, events: seq<Event>, session: nat, n: string)
    requires events != []
    ensures LostInCrash(env, events, session, n) <==>
              LostInCrash(env, events[..|events| - 1], session, n) || CrashFinds(env, events, |events| - 1, session, n)
  {
    var m := |events| - 1;
    forall c | 0 <= c < m
      ensures CrashFinds(env, events, c, session, n) <==> CrashFinds(env, events[..m], c, session, n)
    {
      assert events[..m][..c] == events[..c];
    }
  }

  /**
   * What a step adds to the cancels: at most one call, dated now - a parked one
   * for a waiting order, or an immediate one for the order a client named.
   */
  ghost predicate Adds(w: World, w': World, e: Event, sent: Option<CancelCall>) {
    var named := if e.Cancel? && e.key in w.rows then {w.rows[e.key].native} else {};
    && w'.log.cancels == w.log.cancels + (if sent.Some? then [sent.value] else [])
    && (sent.Some? ==> sent.value.session == w.log.crashes
                       && (sent.value.native in w.session.pendingCancels || sent.value.native in named))
    && w'.session.pendingCancels <= w.session.pendingCancels + named
    && w.log.deferred <= w'.log.deferred
    && forall d :: d in w'.log.deferred ==> d in w.log.deferred || d.0 == w.log.crashes
  }

  lemma CancelAdds(env: Env, st: State, k: Key) returns (sent: Option<CancelCall>)
    requires Proper(env) && Sound(st) && Indexes(env, st, false) && st.up
    ensures Adds(st.world, CancelOrder(st.world, k).0, Cancel(k), sent)
  {
    TargetNative(env, st, k);
    var (s, n) := CancelTarget(st.world, k);
    CancelEffect(st.world, k, s, n);
    sent := if n != "" && n in s.orderNoByNative
    then Some(CancelCall(n, s.orderNoByNative[n], s.serverFlagByNative[n], false, st.world.log.crashes)) else None;
  }

  lemma UpdateAdds(env: Env, st: State, u: OrderUpdate, found: Option<Key>) returns (sent: Option<CancelCall>)
    requires Proper(env) && Sound(st) && Indexes(env, st, false) && CancelsOk(env, st.world)
             && Expected(env, st, OrderChanged(u, found))
    ensures Adds(st.world, UpdateOrder(st.world, u, found), OrderChanged(u, found), sent)
  {
    UpdateShape(env, st, u, found);
    sent := if Due(st.world, u) then Some(CancelCall(u.native, u.orderNo, u.serverFlag, true, st.world.log.crashes))
      else None;
  }

  lemma StepAdds(env: Env, st: State, e: Event) returns (sent: Option<CancelCall>)
    requires Proper(env) && Sound(st) && Indexes(env, st, false) && CancelsOk(env, st.world) && Expected(env, st, e)
    ensures Adds(st.world, Step(env, st, e).world, e, sent)
  {
    if e.Cancel? { sent := CancelAdds(env, st, e.key); }
    else if e.OrderChanged? { sent := UpdateAdds(env, st, e.update, e.found); }
    else {
      NoCancelStep(env, st, e);
      sent := None;
    }
  }

  /** The cancels parked in a past session are history. */
  lemma AddsKeepsPast(w: World, w': World, e: Event, sent: Option<CancelCall>, session: nat, n: string)
    requires Adds(w, w', e, sent) && session < w.log.crashes
    ensures Sends(w'.log.cancels, session, n) == Sends(w.log.cancels, session, n)
    ensures (session, n) in w'.log.deferred <==> (session, n) in w.log.deferred
  {
    if sent.Some? {
      SendsAppend(w.log.cancels, sent.value, session, n);
    } else {
      assert w'.log.cancels == w.log.cancels;
    }
  }

  /** A past session's parked cancels were sent or lost, never both; nothing of this session is lost. */
  ghost predicate Fate(env: Env, events: seq<Event>, w: World, session: nat, n: string) {
    if session < w.log.crashes then
      (session, n) in w.log.deferred ==>
        Sends(w.log.cancels, session, n) <= 1
        && (Sends(w.log.cancels, session, n) == 1 <==> !LostInCrash(env, events, session, n))
    else !LostInCrash(env, events, session, n)
  }

  lemma CrashFate(env: Env, events: seq<Event>, before: State, session: nat, n: string)
    requires events != [] && events[|events| - 1].Crash? && Reaches(env, START, events[..|events| - 1], before)
             && before.up
    requires Parked(before.world) && Fate(env, events[..|events| - 1], before.world, session, n)
    ensures var w := before.world;
            Fate(env, events, w.(session := EMPTY_SESSION, log := w.log.(crashes := w.log.crashes + 1)), session, n)
  {
    var m := |events| - 1;
    LostStep(env, events, session, n);
    assert ParkedOk(before.world, n);
    assert CrashFinds(env, events, m, session, n) <==>
      before.world.log.crashes == session && n in before.world.session.pendingCancels;
  }

  lemma {:induction false} RunFate(env: Env, events: seq<Event>, st: State, session: nat, n: string)
    requires Proper(env) && Honestly(env, events, st) && Resolved(events)
    ensures Fate(env, events, st.world, session, n)
  {
    if events != [] {
      var m := |events| - 1;
      var e := events[m];
      var before := HonestStep(env, events, st);
      RunFate(env, events[..m], before, session, n);
      RunParks(env, events[..m], before);
      if e.Crash? {
        CrashFate(env, events, before, session, n);
      } else {
        RunIndexes(env, events[..m], before, false);
        RunCancels(env, events[..m], before);
        LostStep(env, events, session, n);
        CrashesCounted(env, before, e);
        if session < before.world.log.crashes {
          var sent := StepAdds(env, before, e);
          AddsKeepsPast(before.world, st.world, e, sent, session, n);
        }
      }
    }
  }

  /** Only a crash starts a new session. */
  lemma CrashesCounted(env: Env, st: State, e: Event)
    requires Enabled(env, st, e)
    ensures Step(env, st, e).world.log.crashes == st.world.log.crashes + if e.Crash? then 1 else 0
  {
    if NoCancel(e) { NoCancelStep(env, st, e); }
  }

  /**
   * Deferred cancels, over every run whose order updates resolve, crashes
   * included: a cancel that was accepted as pending is sent at most once. It
   * has been sent or still waits exactly when no crash came while it waited;
   * within the current session the arrival of the order number decides which.
   */
  lemma DeferredCancels(env: Env, events: seq<Event>, st: State, session: nat, n: string)
    requires Proper(env) && Honestly(env, events, st) && Resolved(events)
    requires (session, n) in st.world.log.deferred
    ensures var w := st.world;
            var sends := Sends(w.log.cancels, session, n);
            var waits := session == w.log.crashes && n in w.session.pendingCancels;
            && session <= w.log.crashes && sends <= 1 && !(sends == 1 && waits)
            && (sends == 1 || waits <==> !LostInCrash(env, events, session, n))
            && (session == w.log.crashes ==> (waits <==> n !in w.session.orderNoByNative))
  {
    RunParks(env, events, st);
    RunFate(env, events, st, session, n);
    assert ParkedOk(st.world, n);
  }

  // ---- A lost cancel stays lost ----

  /** No command of these events asks to cancel the order with this native id. */
  ghost predicate NotAsked(events: seq<Event>, rows: map<Key, Record>, n: string) {
    forall i :: 0 <= i < |events| && events[i].Cancel? ==> !(events[i].key in rows && rows[events[i].key].native == n)
  }

  ghost predicate SameCalls(a: seq<CancelCall>, b: seq<CancelCall>, n: string) {
    a <= b && forall i :: |a| <= i < |b| ==> b[i].native != n
  }

  lemma UnaskedStep(env: Env, st: State, e: Event, n: string)
    requires Proper(env) && Sound(st) && Indexes(env, st, false) && CancelsOk(env, st.world) && Expected(env, st, e)
    requires n !in st.world.session.pendingCancels
    requires e.Cancel? ==> !(e.key in st.world.rows && st.world.rows[e.key].native == n)
    ensures var w, w' := st.world, Step(env, st, e).world;
            n !in w'.session.pendingCancels && SameCalls(w.log.cancels, w'.log.cancels, n)
  {
    var sent := StepAdds(env, st, e);
  }

  lemma HonestAppend(env: Env, events: seq<Event>, more: seq<Event>, late: State) returns (before: State)
    requires more != [] && Honestly(env, events + more, late)
    ensures var m := |more| - 1;
            Honestly(env, events + more[..m], before) && Expected(env, before, more[m])
              && late == Step(env, before, more[m])
  {
    assert (events + more)[..|events + more| - 1] == events + more[..|more| - 1];
    before := HonestStep(env, events + more, late);
  }

  /**
   * Once an order has no waiting cancel - because a crash dropped it, say -
   * nothing cancels it until a client asks again.
   */
  lemma {:induction false} NothingSentUnasked(env: Env, events: seq<Event>, more: seq<Event>, st: State, late: State,
      n: string)
    requires Proper(env) && Honestly(env, events, st) && Honestly(env, events + more, late)
    requires n != "" && n !in st.world.session.pendingCancels && NotAsked(more, late.world.rows, n)
    ensures n !in late.world.session.pendingCancels && SameCalls(st.world.log.cancels, late.world.log.cancels, n)
  {
    if more == [] {
      assert events + more == events;
    } else {
      var m := |more| - 1;
      var before := HonestAppend(env, events, more, late);
      RunSafe(env, events + more[..m], before);
      StepKeeps(env, before, more[m]);
      NotAskedBefore(before, late, more, n);
      NothingSentUnasked(env, events, more[..m], st, before, n);
      RunIndexes(env, events + more[..m], before, false);
      RunCancels(env, events + more[..m], before);
      UnaskedStep(env, before, more[m], n);
    }
  }

  lemma NotAskedBefore(before: State, late: State, more: seq<Event>, n: string)
    requires more != [] && n != "" && Keeps(before.world.rows, late.world.rows) && NotAsked(more, late.world.rows, n)
    ensures NotAsked(more[..|more| - 1], before.world.rows, n)
    ensures var e := more[|more| - 1]; e.Cancel? ==>
              !(e.key in before.world.rows && before.world.rows[e.key].native == n)
  {
  }

  /**
   * A crash does lose cancels: for every order there is a run, all of whose
   * updates resolve, in which a cancel was accepted as pending, the order's
   * number is known, and nothing was sent or waits.
   */
  lemma CrashLosesCancel(env: Env, k: Key, symbol: string, n: string) returns (events: seq<Event>, st: State)
    requires Proper(env) && n != ""
    ensures Honestly(env, events, st) && st.up && Resolved(events)
    ensures k in st.world.log.asked && (0, n) in st.world.log.deferred && LostInCrash(env, events, 0, n)
    ensures st.world.log.cancels == [] && st.world.session.pendingCancels == {} && n in st.world.session.orderNoByNative
  {
    var parked: State;
    events, parked := CancelParked(env, k, symbol, n);
    var c := |events|;
    assert Run(env, START, events) == Some(parked);
    st := CrashRestart(env, events, parked, k, symbol, n);
    var known := OrderChanged(OrderUpdate(n, env.pair(n).0, env.pair(n).1, Submitted, true), Some(k));
    var before := events + [Crash] + [Restart([k])];
    var late := NumberArrives(env, before, st, k, n);
    assert (before + [known])[..c] == events;
    assert CrashFinds(env, before + [known], c, 0, n);
    events, st := before + [known], late;
  }

  lemma CrashRestart(env: Env, events: seq<Event>, st: State, k: Key, symbol: string, n: string) returns (st': State)
    requires Honestly(env, events, st) && st.up && n != ""
    requires st.world.rows == map[k := Record(symbol, n, "", "", Accepted, "")]
    ensures Honestly(env, events + [Crash] + [Restart([k])], st') && st'.up
    ensures st'.world.rows == st.world.rows && st'.world.log == st.world.log.(crashes := st.world.log.crashes + 1)
    ensures st'.world.session == Identify(EMPTY_SESSION, n, Identity(k, symbol))
  {
    ExtendHonestly(env, events, st, Crash);
    var down := Step(env, st, Crash);
    ExtendHonestly(env, events + [Crash], down, Restart([k]));
    st' := Step(env, down, Restart([k]));
    assert HydrateAll([k], down.world.rows) == Hydrate(EMPTY_SESSION, k, down.world.rows[k]) by {
      assert [k][..0] == [] && HydrateAll([], down.world.rows) == EMPTY_SESSION;
    }
  }

  lemma NumberArrives(env: Env, events: seq<Event>, st: State, k: Key, n: string) returns (st': State)
    requires Proper(env) && Honestly(env, events, st) && st.up && n != ""
    requires k in st.world.rows && st.world.rows[k].native == n && n in st.world.session.identityByNative
    requires st.world.session.pendingCancels == {}
    ensures var u := OrderUpdate(n, env.pair(n).0, env.pair(n).1, Submitted, true);
            Honestly(env, events + [OrderChanged(u, Some(k))], st') && st'.up
    ensures st'.world.log == st.world.log && st'.world.session.pendingCancels == {}
            && n in st'.world.session.orderNoByNative
  {
    var u := OrderUpdate(n, env.pair(n).0, env.pair(n).1, Submitted, true);
    ExtendHonestly(env, events, st, OrderChanged(u, Some(k)));
    st' := Step(env, st, OrderChanged(u, Some(k)));
    UpdateEffect(st.world, u, Some(k), Indexed(st.world, u, Some(k)));
  }

  /** A first order, accepted as `n`, and a cancel for it before its number is known. */
  lemma CancelParked(env: Env, k: Key, symbol: string, n: string) returns (events: seq<Event>, st: State)
    requires Proper(env) && n != ""
    ensures Honestly(env, events, st) && st.up && st.calls == map[] && st.publishing.None? && Resolved(events)
    ensures st.world.rows == map[k := Record(symbol, n, "", "", Accepted, "")]
    ensures k in st.world.log.asked && st.world.log.cancels == [] && st.world.log.crashes == 0
    ensures st.world.log.deferred == {(0, n)} && st.world.session.pendingCancels == {n}
  {
    FirstStart(env);
    var up := START.(up := true);
    events := PlaceAccepted(env, [Restart([])], up, k, symbol, n);
    st := up.(world := Accepting(up.world, k, symbol, n));
    ExtendHonestly(env, events, st, Cancel(k));
    events, st := events + [Cancel(k)], Step(env, st, Cancel(k));
  }

  /**
   * Without that assumption the guarantee fails: an update that carries the
   * order number but names no known contract leaves the parked cancel waiting
   * although the number is known.
   */
  lemma StrandedCancel(env: Env, k: Key, symbol: string, n: string) returns (events: seq<Event>, st: State)
    requires Proper(env) && n != ""
    ensures Honestly(env, events, st) && st.up
    ensures k in st.world.log.asked && st.world.log.cancels == []
    ensures n in st.world.session.pendingCancels && n in st.world.session.orderNoByNative
  {
    FirstStart(env);
    var up := START.(up := true);
    events := PlaceAccepted(env, [Restart([])], up, k, symbol, n);
    st := up.(world := Accepting(up.world, k, symbol, n));
    ExtendHonestly(env, events, st, Cancel(k));
    events, st := events + [Cancel(k)], Step(env, st, Cancel(k));
    assert n in st.world.session.pendingCancels && k in st.world.log.asked && st.world.log.cancels == [];
    var late := OrderChanged(OrderUpdate(n, env.pair(n).0, env.pair(n).1, Submitted, false), Some(k));
    ExtendHonestly(env, events, st, late);
    events, st := events + [late], Step(env, st, late);
  }
}
