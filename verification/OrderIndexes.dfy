/** The session's order indexes against the store, over every run. */
module OrderIndexes {
  import opened Prelude
  import opened OrderStore
  import opened OrderLifecycle
  import opened SubmissionSafety

  /** The identity indexes are mutually inverse and say what the store says. */
  ghost predicate Named(rows: map<Key, Record>, s: Session) {
    && (forall n :: n in s.identityByNative ==>
          var id := s.identityByNative[n];
          && n != "" && id.key in rows && rows[id.key].native == n && rows[id.key].symbol == id.symbol
          && id.key in s.nativeByIdentity && s.nativeByIdentity[id.key] == n)
    && forall k :: k in s.nativeByIdentity ==>
          s.nativeByIdentity[k] in s.identityByNative && s.identityByNative[s.nativeByIdentity[k]].key == k
  }

  /** The three order-number indexes hold the exchange's pairs and agree with each other. */
  ghost predicate Numbered(env: Env, s: Session) {
    && s.serverFlagByNative.Keys == s.orderNoByNative.Keys
    && (forall n :: n in s.orderNoByNative ==>
          && n != "" && (s.orderNoByNative[n], s.serverFlagByNative[n]) == env.pair(n)
          && env.pair(n) in s.nativeByOrderKey && s.nativeByOrderKey[env.pair(n)] == n)
    && forall p :: p in s.nativeByOrderKey ==>
          s.nativeByOrderKey[p] in s.orderNoByNative && env.pair(s.nativeByOrderKey[p]) == p
  }

  /** Stored pairs are the exchange's; both fields are set together. */
  ghost predicate StoredPairs(env: Env, rows: map<Key, Record>) {
    forall k :: k in rows ==>
      var r := rows[k];
      && (r.orderNo == "" ==> r.serverFlag == "")
      && (r.orderNo != "" ==> r.native != "" && (r.orderNo, r.serverFlag) == env.pair(r.native))
  }

  /** A call has stored this record's native id and is about to index it. */
  ghost predicate BeingInstalled(calls: map<nat, Call>, k: Key, n: string) {
    exists i :: i in calls && calls[i].key == k && calls[i].pc == Installing(n)
  }

  ghost predicate CoversRow(s: Session, calls: map<nat, Call>, k: Key, r: Record, strict: bool) {
    && (strict && r.native != "" ==> r.native in s.identityByNative || BeingInstalled(calls, k, r.native))
    && (r.orderNo != "" ==> r.native in s.orderNoByNative)
  }

  ghost predicate Covers(rows: map<Key, Record>, s: Session, calls: map<nat, Call>, strict: bool) {
    forall k :: k in rows ==> CoversRow(s, calls, k, rows[k], strict)
  }

  ghost predicate Indexes(env: Env, st: State, strict: bool) {
    && StoredPairs(env, st.world.rows)
    && (st.up ==> Named(st.world.rows, st.world.session) && Numbered(env, st.world.session)
                  && Covers(st.world.rows, st.world.session, st.calls, strict))
  }

  /** Nothing that was indexed is forgotten. */
  ghost predicate Grows(s: Session, s': Session) {
    && s.identityByNative.Keys <= s'.identityByNative.Keys
    && s.orderNoByNative.Keys <= s'.orderNoByNative.Keys
  }

  // ---- Single updates ----

  lemma IdentifyNamed(rows: map<Key, Record>, s: Session, n: string, id: Identity)
    requires Named(rows, s) && UniqueNatives(rows)
    requires n != "" && id.key in rows && rows[id.key].native == n && rows[id.key].symbol == id.symbol
    ensures Named(rows, Identify(s, n, id))
  {
  }

  lemma LearnNumbered(env: Env, s: Session, n: string, o: string, f: string)
    requires Proper(env) && Numbered(env, s) && n != "" && (o, f) == env.pair(n)
    ensures Numbered(env, Learn(s, n, o, f))
  {
  }

  lemma HydrateIndexes(env: Env, rows: map<Key, Record>, s: Session, k: Key)
    requires Proper(env) && Named(rows, s) && Numbered(env, s)
    requires UniqueNatives(rows) && StoredPairs(env, rows) && k in rows
    ensures var s' := Hydrate(s, k, rows[k]);
            && Named(rows, s') && Numbered(env, s') && Grows(s, s')
            && (rows[k].native != "" ==> rows[k].native in s'.identityByNative)
            && (rows[k].orderNo != "" ==> rows[k].native in s'.orderNoByNative)
            && s'.pendingCancels == s.pendingCancels
  {
    var r := rows[k];
    if r.native != "" {
      IdentifyNamed(rows, s, r.native, Identity(k, r.symbol));
      if r.orderNo != "" {
        LearnNumbered(env, Identify(s, r.native, Identity(k, r.symbol)), r.native, r.orderNo, r.serverFlag);
      }
    }
  }

  lemma KeepsNamed(before: map<Key, Record>, after: map<Key, Record>, s: Session)
    requires Named(before, s) && Keeps(before, after)
    ensures Named(after, s)
  {
  }

  lemma GrowsCovers(rows: map<Key, Record>, s: Session, s': Session, calls: map<nat, Call>, strict: bool)
    requires Covers(rows, s, calls, strict) && Grows(s, s')
    ensures Covers(rows, s', calls, strict)
  {
    forall k | k in rows ensures CoversRow(s', calls, k, rows[k], strict) {
      assert CoversRow(s, calls, k, rows[k], strict);
    }
  }

  /** Restoring from a listing indexes every listed record. */
  lemma {:induction false} RestoreIndexes(env: Env, order: seq<Key>, rows: map<Key, Record>)
    requires Proper(env) && UniqueNatives(rows) && StoredPairs(env, rows)
    requires forall k :: k in order ==> k in rows
    ensures var s := HydrateAll(order, rows);
            && Named(rows, s) && Numbered(env, s)
            && (forall k :: k in order ==>
                  && (rows[k].native != "" ==> rows[k].native in s.identityByNative)
                  && (rows[k].orderNo != "" ==> rows[k].native in s.orderNoByNative))
            && (forall n :: n in s.orderNoByNative ==>
                 exists k :: k in rows && rows[k].native == n && rows[k].orderNo != "")
            && s.pendingCancels == {}
  {
    if order != [] {
      var n := |order| - 1;
      RestoreIndexes(env, order[..n], rows);
      assert order[n] in order;
      assert order == order[..n] + [order[n]];
      HydrateIndexes(env, rows, HydrateAll(order[..n], rows), order[n]);
    }
  }

  // ---- Steps ----

  /** `strict` coverage assumes no exception between storing a native id and indexing it. */
  predicate Calm(st: State, e: Event) {
    !(e.Abort? && e.id in st.calls && st.calls[e.id].pc.Installing?)
  }

  lemma PlaceStored(env: Env, st: State, id: nat, o: InsertOutcome)
    requires Sound(st) && id in st.calls && StoredPairs(env, st.world.rows)
    ensures StoredPairs(env, PlaceStep(st.world, st.calls[id], o).0.rows)
  {
    assert CallOk(st.world, st.calls[id]);
  }

  lemma PlaceSession(env: Env, st: State, id: nat, o: InsertOutcome, strict: bool)
    requires Proper(env) && Sound(st) && Indexes(env, st, strict) && st.up && id in st.calls
    ensures var w' := PlaceStep(st.world, st.calls[id], o).0;
            && Named(w'.rows, w'.session) && Numbered(env, w'.session) && Grows(st.world.session, w'.session)
            && (st.calls[id].pc.Installing? ==> st.calls[id].pc.native in w'.session.identityByNative)
  {
    var w, c := st.world, st.calls[id];
    assert CallOk(w, c);
    PlaceKeeps(st, id, o);
    if c.pc.Looking? && c.key in w.rows {
      HydrateIndexes(env, w.rows, w.session, c.key);
    } else if c.pc.Installing? {
      IdentifyNamed(w.rows, w.session, c.pc.native, Identity(c.key, c.symbol));
    } else {
      KeepsNamed(w.rows, PlaceStep(w, c, o).0.rows, w.session);
    }
  }

  /** A record some call was installing is still being installed, unless that call just took its step. */
  lemma StillInstalled(st: State, calls: map<nat, Call>, id: nat, k: Key, n: string)
    requires BeingInstalled(st.calls, k, n)
    requires forall i :: i in st.calls && i != id ==> i in calls && calls[i] == st.calls[i]
    ensures BeingInstalled(calls, k, n) || (id in st.calls && st.calls[id].key == k && st.calls[id].pc == Installing(n))
  {
    var i :| i in st.calls && st.calls[i].key == k && st.calls[i].pc == Installing(n);
    if i != id {
      assert i in calls && calls[i] == st.calls[i];
    }
  }

  /** A record other than the one being stored stays covered. */
  lemma PlaceCovers(env: Env, st: State, id: nat, o: InsertOutcome, k: Key, strict: bool)
    requires Sound(st) && Covers(st.world.rows, st.world.session, st.calls, strict) && Expected(env, st, Place(id, o))
    requires var w' := PlaceStep(st.world, st.calls[id], o).0;
             && Grows(st.world.session, w'.session) && k in w'.rows
             && (st.calls[id].pc.Installing? ==> st.calls[id].pc.native in w'.session.identityByNative)
    ensures var st' := Step(env, st, Place(id, o));
            CoversRow(st'.world.session, st'.calls, k, st'.world.rows[k], strict)
  {
    var c := st.calls[id];
    var st' := Step(env, st, Place(id, o));
    assert CallOk(st.world, c);
    if c.pc.Recording? && k == c.key {
      assert st'.calls[id] == Call(c.key, c.symbol, Installing(c.pc.native));
    } else if k in st.world.rows {
      var n := st.world.rows[k].native;
      assert CoversRow(st.world.session, st.calls, k, st.world.rows[k], strict);
      if n != "" && BeingInstalled(st.calls, k, n) {
        StillInstalled(st, st'.calls, id, k, n);
      }
    }
  }

  lemma PlaceIndexes(env: Env, st: State, id: nat, o: InsertOutcome, strict: bool)
    requires Proper(env) && Sound(st) && Indexes(env, st, strict) && Expected(env, st, Place(id, o))
    ensures Indexes(env, Step(env, st, Place(id, o)), strict)
  {
    PlaceStored(env, st, id, o);
    PlaceSession(env, st, id, o, strict);
    var st' := Step(env, st, Place(id, o));
    forall k | k in st'.world.rows
      ensures CoversRow(st'.world.session, st'.calls, k, st'.world.rows[k], strict)
    {
      PlaceCovers(env, st, id, o, k, strict);
    }
  }

  /** After the in-memory part of an order update. */
  lemma UpdateSession(env: Env, st: State, u: OrderUpdate, found: Option<Key>, strict: bool)
    requires Proper(env) && Sound(st) && Indexes(env, st, strict) && Expected(env, st, OrderChanged(u, found))
    ensures var s := Indexed(st.world, u, found);
            && Named(st.world.rows, s) && Numbered(env, s) && Grows(st.world.session, s)
            && s.pendingCancels == st.world.session.pendingCancels
            && (u.native != "" && u.orderNo != "" ==> u.native in s.orderNoByNative)
            && (u.native != "" && found.Some? ==> u.native in s.identityByNative)
  {
    var s := st.world.session;
    var learned := if u.native != "" && u.orderNo != "" then Learn(s, u.native, u.orderNo, u.serverFlag) else s;
    if u.native != "" && u.orderNo != "" {
      LearnNumbered(env, s, u.native, u.orderNo, u.serverFlag);
    }
    if u.native != "" && u.native !in learned.identityByNative && found.Some? {
      HydrateIndexes(env, st.world.rows, learned, found.value);
    }
  }

  lemma UpdateStored(env: Env, st: State, u: OrderUpdate, found: Option<Key>)
    requires Proper(env) && StoredPairs(env, st.world.rows) && Expected(env, st, OrderChanged(u, found))
    ensures StoredPairs(env, UpdateOrder(st.world, u, found).rows)
  {
    var rows, rows' := st.world.rows, UpdateOrder(st.world, u, found).rows;
    forall k | k in rows'
      ensures rows'[k].orderNo == "" ==> rows'[k].serverFlag == ""
      ensures rows'[k].orderNo != "" ==>
                && rows'[k].native != ""
                && (rows'[k].orderNo, rows'[k].serverFlag) == env.pair(rows'[k].native)
    {
      var r := rows[k];
      assert (r.orderNo == "" ==> r.serverFlag == "")
        && (r.orderNo != "" ==> (r.orderNo, r.serverFlag) == env.pair(r.native));
    }
  }

  lemma UpdateCovers(st: State, u: OrderUpdate, found: Option<Key>, s: Session, strict: bool)
    requires Covers(st.world.rows, s, st.calls, strict)
    requires u.native != "" ==> Answers(st.world.rows, ByNative(u.native), found)
    requires u.native != "" && u.orderNo != "" ==> u.native in s.orderNoByNative
    ensures Covers(UpdateOrder(st.world, u, found).rows, s, st.calls, strict)
  {
    var rows' := UpdateOrder(st.world, u, found).rows;
    forall k | k in rows' ensures CoversRow(s, st.calls, k, rows'[k], strict) {
      assert CoversRow(s, st.calls, k, st.world.rows[k], strict);
    }
  }

  lemma UpdatedSession(w: World, u: OrderUpdate, found: Option<Key>)
    ensures UpdateOrder(w, u, found).session.(pendingCancels := {}) == Indexed(w, u, found).(pendingCancels := {})
  {
  }

  lemma UpdateIndexes(env: Env, st: State, u: OrderUpdate, found: Option<Key>, strict: bool)
    requires Proper(env) && Sound(st) && Indexes(env, st, strict) && Expected(env, st, OrderChanged(u, found))
    ensures Indexes(env, Step(env, st, OrderChanged(u, found)), strict)
  {
    var w, w' := st.world, UpdateOrder(st.world, u, found);
    var s := Indexed(w, u, found);
    UpdateSession(env, st, u, found, strict);
    UpdateStored(env, st, u, found);
    UpdateKeeps(st, u, found);
    KeepsNamed(w.rows, w'.rows, s);
    GrowsCovers(w.rows, w.session, s, st.calls, strict);
    UpdateCovers(st, u, found, s, strict);
    UpdatedSession(w, u, found);
    SamePending(env, w'.rows, s, w'.session, st.calls, strict);
  }

  lemma HydrateStep(env: Env, st: State, k: Key, strict: bool)
    requires Proper(env) && Sound(st) && Indexes(env, st, strict) && st.up && k in st.world.rows
    ensures var s' := Hydrate(st.world.session, k, st.world.rows[k]);
            Named(st.world.rows, s') && Numbered(env, s') && Covers(st.world.rows, s', st.calls, strict)
  {
    HydrateIndexes(env, st.world.rows, st.world.session, k);
    GrowsCovers(st.world.rows, st.world.session, Hydrate(st.world.session, k, st.world.rows[k]), st.calls, strict);
  }

  lemma CancelSession(w: World, k: Key)
    ensures var w' := CancelOrder(w, k).0;
            && w'.rows == w.rows
            && w'.session.(pendingCancels := {}) == CancelTarget(w, k).0.(pendingCancels := {})
  {
  }

  lemma CancelIndexes(env: Env, st: State, k: Key, strict: bool)
    requires Proper(env) && Sound(st) && Indexes(env, st, strict) && st.up
    ensures Indexes(env, st.(world := CancelOrder(st.world, k).0), strict)
  {
    if k in st.world.rows { HydrateStep(env, st, k, strict); }
    CancelSession(st.world, k);
    SamePending(env, st.world.rows, CancelTarget(st.world, k).0, CancelOrder(st.world, k).0.session, st.calls, strict);
  }

  lemma SamePending(env: Env, rows: map<Key, Record>, s: Session, s': Session, calls: map<nat, Call>, strict: bool)
    requires Named(rows, s) && Numbered(env, s) && Covers(rows, s, calls, strict)
    requires s'.(pendingCancels := {}) == s.(pendingCancels := {})
    ensures Named(rows, s') && Numbered(env, s') && Covers(rows, s', calls, strict)
  {
    forall k | k in rows ensures CoversRow(s', calls, k, rows[k], strict) {
      assert CoversRow(s, calls, k, rows[k], strict);
    }
  }

  lemma FilledIndexes(env: Env, st: State, f: Fill, found: Option<Key>, gap: nat, strict: bool)
    requires Proper(env) && Sound(st) && Indexes(env, st, strict) && Enabled(env, st, Filled(f, found, gap))
    ensures Indexes(env, Step(env, st, Filled(f, found, gap)), strict)
  {
    if found.Some? && found.value in st.world.rows { HydrateStep(env, st, found.value, strict); }
    var st' := Step(env, st, Filled(f, found, gap));
    assert st'.world.rows == st.world.rows && st'.calls == st.calls;
    assert st'.world.session == Attribute(st.world, f.orderNo, f.serverFlag, found).session;
  }

  lemma RestartIndexes(env: Env, st: State, order: seq<Key>, strict: bool)
    requires Proper(env) && Sound(st) && Indexes(env, st, strict) && Enabled(env, st, Restart(order))
    ensures Indexes(env, Step(env, st, Restart(order)), strict)
  {
    RestoreIndexes(env, order, st.world.rows);
    var st' := Step(env, st, Restart(order));
    forall k | k in st'.world.rows ensures CoversRow(st'.world.session, st'.calls, k, st'.world.rows[k], strict) {
      assert k in order;
    }
  }

  /** Starting a call, or abandoning one that is not installing, leaves coverage as it was. */
  lemma CallsIndexes(env: Env, st: State, st': State, strict: bool)
    requires Indexes(env, st, strict) && st'.world.rows == st.world.rows && st'.world.session == st.world.session
             && st'.up == st.up
    requires strict ==> forall i :: i in st.calls && st.calls[i].pc.Installing? ==>
               i in st'.calls && st'.calls[i] == st.calls[i]
    ensures Indexes(env, st', strict)
  {
    if st.up {
      forall k | k in st'.world.rows ensures CoversRow(st'.world.session, st'.calls, k, st'.world.rows[k], strict) {
        var r := st.world.rows[k];
        assert CoversRow(st.world.session, st.calls, k, r, strict);
        if strict && BeingInstalled(st.calls, k, r.native) {
          var i :| i in st.calls && st.calls[i].key == k && st.calls[i].pc == Installing(r.native);
          assert st'.calls[i] == st.calls[i];
        }
      }
    }
  }

  lemma StepIndexes(env: Env, st: State, e: Event, strict: bool)
    requires Proper(env) && Sound(st) && Indexes(env, st, strict) && Expected(env, st, e) && (strict ==> Calm(st, e))
    ensures Indexes(env, Step(env, st, e), strict)
  {
    match e
    case Place(id, o) => PlaceIndexes(env, st, id, o, strict);
    case OrderChanged(u, found) => UpdateIndexes(env, st, u, found, strict);
    case Cancel(k) => CancelIndexes(env, st, k, strict);
    case Filled(f, found, gap) => FilledIndexes(env, st, f, found, gap, strict);
    case Restart(order) => RestartIndexes(env, st, order, strict);
    case BeginPlace(_, _, _) => CallsIndexes(env, st, Step(env, st, e), strict);
    case Abort(_) => CallsIndexes(env, st, Step(env, st, e), strict);
    case Publish => CallsIndexes(env, st, Step(env, st, e), strict);
    case Crash =>
  }

  /** Every event of the run was calm where it happened. */
  ghost predicate CalmRun(env: Env, events: seq<Event>) {
    forall i :: 0 <= i < |events| && Run(env, START, events[..i]).Some? ==>
      Calm(Run(env, START, events[..i]).value, events[i])
  }

  lemma CalmPrefix(env: Env, events: seq<Event>)
    requires CalmRun(env, events) && events != []
    ensures CalmRun(env, events[..|events| - 1])
  {
    var n := |events| - 1;
    forall i | 0 <= i < n && Run(env, START, events[..n][..i]).Some?
      ensures Calm(Run(env, START, events[..n][..i]).value, events[..n][i])
    {
      assert events[..n][..i] == events[..i];
    }
  }

  lemma {:induction false} RunIndexes(env: Env, events: seq<Event>, st: State, strict: bool)
    requires Proper(env) && Honestly(env, events, st) && (strict ==> CalmRun(env, events))
    ensures Sound(st) && Indexes(env, st, strict)
  {
    RunSafe(env, events, st);
    RunIdentified(env, events, st);
    if events != [] {
      var n := |events| - 1;
      var before := HonestStep(env, events, st);
      if strict { CalmPrefix(env, events); }
      RunIndexes(env, events[..n], before, strict);
      StepIndexes(env, before, events[n], strict);
    }
  }

  // ---- Theorems ----

  /**
   * In every reachable running state, whatever was interrupted, the identity
   * indexes are mutually inverse and hold only what the store says, and every
   * stored pair is in all three order-number indexes.
   */
  lemma IndexesAreSound(env: Env, events: seq<Event>, st: State)
    requires Proper(env) && Honestly(env, events, st) && st.up
    ensures var rows, s := st.world.rows, st.world.session;
            && Named(rows, s) && Numbered(env, s)
            && (forall k :: k in rows && rows[k].orderNo != "" ==>
                  var p := (rows[k].orderNo, rows[k].serverFlag);
                  && rows[k].native in s.orderNoByNative && rows[k].native in s.serverFlagByNative
                  && (s.orderNoByNative[rows[k].native], s.serverFlagByNative[rows[k].native]) == p
                  && p in s.nativeByOrderKey && s.nativeByOrderKey[p] == rows[k].native)
  {
    RunIndexes(env, events, st, false);
    var rows, s := st.world.rows, st.world.session;
    forall k | k in rows && rows[k].orderNo != ""
      ensures rows[k].native in s.orderNoByNative
    {
      assert CoversRow(s, st.calls, k, rows[k], false);
    }
  }

  /**
   * In a calm run a stored native id is missing from the identity indexes only
   * while the call that stored it is about to index it.
   */
  lemma CalmIndexes(env: Env, events: seq<Event>, st: State, k: Key)
    requires Proper(env) && Honestly(env, events, st) && CalmRun(env, events) && st.up
    requires k in st.world.rows && st.world.rows[k].native != ""
    requires !BeingInstalled(st.calls, k, st.world.rows[k].native)
    ensures var n, s := st.world.rows[k].native, st.world.session;
            && n in s.identityByNative && s.identityByNative[n] == Identity(k, st.world.rows[k].symbol)
            && k in s.nativeByIdentity && s.nativeByIdentity[k] == n
  {
    RunIndexes(env, events, st, true);
    assert CoversRow(st.world.session, st.calls, k, st.world.rows[k], true);
    assert st.world.session.identityByNative[st.world.rows[k].native].key == k;
  }

  /** With no call installing, the identity indexes are exactly the store's native column. */
  lemma QuiescentIndexes(env: Env, events: seq<Event>, st: State)
    requires Proper(env) && Honestly(env, events, st) && CalmRun(env, events) && st.up
    requires forall i :: i in st.calls ==> !st.calls[i].pc.Installing?
    ensures var rows, s := st.world.rows, st.world.session;
            && (forall k :: k in s.nativeByIdentity <==> k in rows && rows[k].native != "")
            && (forall n :: n in s.identityByNative <==> exists k :: k in rows && rows[k].native == n != "")
  {
    IndexesAreSound(env, events, st);
    var rows, s := st.world.rows, st.world.session;
    forall k | k in rows && rows[k].native != ""
      ensures k in s.nativeByIdentity && rows[k].native in s.identityByNative
    {
      assert !BeingInstalled(st.calls, k, rows[k].native);
      CalmIndexes(env, events, st, k);
    }
    forall n | n in s.identityByNative ensures exists k :: k in rows && rows[k].native == n != "" {
      assert rows[s.identityByNative[n].key].native == n;
    }
  }

  // ---- Gaps: stored native ids that no index names ----

  ghost predicate Missing(st: State, k: Key) {
    && st.up && k in st.world.rows && st.world.rows[k].native != ""
    && st.world.rows[k].native !in st.world.session.identityByNative
    && !BeingInstalled(st.calls, k, st.world.rows[k].native)
  }

  /** An exception between storing a native id and indexing it, nobody having indexed it meanwhile. */
  predicate LeavesGap(st: State, e: Event, k: Key) {
    && e.Abort? && e.id in st.calls
    && var c := st.calls[e.id];
       c.key == k && c.pc.Installing? && c.pc.native !in st.world.session.identityByNative
  }

  /**
   * A cancel or another `place_order` for the key, an update of its native id, a
   * fill attributed to it through the store, or the end of the session.
   */
  predicate HealsGap(st: State, e: Event, k: Key) {
    match e
    case Cancel(j) => j == k
    case OrderChanged(u, _) => u.native != "" && k in st.world.rows && st.world.rows[k].native == u.native
    case Place(id, _) => id in st.calls && st.calls[id].pc.Looking? && st.calls[id].key == k
    case Filled(f, found, _) =>
      f.orderNo != "" && found == Some(k) && (f.orderNo, f.serverFlag) !in st.world.session.nativeByOrderKey
    case Crash => true
    case _ => false
  }

  /** At most this native id is new to the identity indexes. */
  ghost predicate AddsId(s: Session, s': Session, n: string) {
    s.identityByNative.Keys <= s'.identityByNative.Keys <= s.identityByNative.Keys + {n}
  }

  lemma HydrateAdds(s: Session, k: Key, r: Record)
    ensures AddsId(s, Hydrate(s, k, r), r.native)
    ensures r.native != "" ==> r.native in Hydrate(s, k, r).identityByNative
  {
  }

  /** Rows and calls as they were, and only `j` possibly indexed: exactly `j` can be healed. */
  lemma GapAfter(st: State, st': State, j: Key, k: Key)
    requires Sound(st) && st.up && st'.up && st'.calls == st.calls && j in st.world.rows
             && st.world.rows[j].native != ""
    requires st'.world.rows.Keys == st.world.rows.Keys
    requires forall l :: l in st.world.rows ==> st'.world.rows[l].native == st.world.rows[l].native
    requires AddsId(st.world.session, st'.world.session, st.world.rows[j].native)
    requires st.world.rows[j].native in st'.world.session.identityByNative
    ensures Missing(st', k) <==> Missing(st, k) && j != k
  {
    if k in st.world.rows && k != j {
      assert st.world.rows[k].native == "" || st.world.rows[k].native != st.world.rows[j].native;
    }
  }

  lemma SameGaps(st: State, st': State, k: Key)
    requires st'.up == st.up && st'.calls == st.calls && st'.world.rows.Keys == st.world.rows.Keys
    requires forall l :: l in st.world.rows ==> st'.world.rows[l].native == st.world.rows[l].native
    requires st'.world.session.identityByNative.Keys == st.world.session.identityByNative.Keys
    ensures Missing(st', k) <==> Missing(st, k)
  {
  }

  lemma IndexedHasNoGap(st: State, k: Key)
    requires Named(st.world.rows, st.world.session) && k in st.world.session.nativeByIdentity
    ensures !Missing(st, k)
  {
  }

  lemma CancelGap(env: Env, st: State, j: Key, k: Key)
    requires Proper(env) && Sound(st) && Indexes(env, st, false) && Enabled(env, st, Cancel(j))
    ensures Missing(Step(env, st, Cancel(j)), k) <==> Missing(st, k) && j != k
  {
    var st', s := Step(env, st, Cancel(j)), CancelTarget(st.world, j).0;
    CancelSession(st.world, j);
    assert st'.world.session.identityByNative == s.identityByNative;
    if j in st.world.session.nativeByIdentity {
      IndexedHasNoGap(st, j);
      SameGaps(st, st', k);
    } else if j in st.world.rows && st.world.rows[j].native != "" {
      HydrateAdds(st.world.session, j, st.world.rows[j]);
      GapAfter(st, st', j, k);
    } else {
      SameGaps(st, st', k);
    }
  }

  lemma FilledGap(env: Env, st: State, f: Fill, found: Option<Key>, gap: nat, k: Key)
    requires Proper(env) && Sound(st) && Indexes(env, st, false) && Enabled(env, st, Filled(f, found, gap))
    ensures Missing(Step(env, st, Filled(f, found, gap)), k) <==>
              Missing(st, k) && !HealsGap(st, Filled(f, found, gap), k)
  {
    var st' := Step(env, st, Filled(f, found, gap));
    assert st'.world.rows == st.world.rows;
    assert st'.world.session == Attribute(st.world, f.orderNo, f.serverFlag, found).session;
    if f.orderNo != "" && found.Some? && (f.orderNo, f.serverFlag) !in st.world.session.nativeByOrderKey {
      var r := st.world.rows[found.value];
      assert r.orderNo != "" && r.native != "";
      HydrateAdds(st.world.session, found.value, r);
      GapAfter(st, st', found.value, k);
    } else {
      SameGaps(st, st', k);
    }
  }

  lemma IndexedAdds(w: World, u: OrderUpdate, found: Option<Key>)
    requires u.native != "" && u.native !in w.session.identityByNative && found.Some? && found.value in w.rows
    ensures var n, s := w.rows[found.value].native, Indexed(w, u, found);
            AddsId(w.session, s, n) && (n != "" ==> n in s.identityByNative)
  {
    var learned := if u.orderNo != "" then Learn(w.session, u.native, u.orderNo, u.serverFlag) else w.session;
    HydrateAdds(learned, found.value, w.rows[found.value]);
  }

  lemma UpdateGap(env: Env, st: State, u: OrderUpdate, found: Option<Key>, k: Key)
    requires Proper(env) && Sound(st) && Indexes(env, st, false) && Expected(env, st, OrderChanged(u, found))
    ensures Missing(Step(env, st, OrderChanged(u, found)), k) <==>
              Missing(st, k) && !HealsGap(st, OrderChanged(u, found), k)
  {
    var st', s := Step(env, st, OrderChanged(u, found)), Indexed(st.world, u, found);
    UpdatedSession(st.world, u, found);
    assert st'.world.session.identityByNative == s.identityByNative;
    UpdateLeaves(st.world, u, found);
    forall l | l in st.world.rows ensures st'.world.rows[l].native == st.world.rows[l].native {
      UpdateRecord(st.world, u, found, l);
    }
    if u.native != "" && u.native !in st.world.session.identityByNative && found.Some? {
      IndexedAdds(st.world, u, found);
      GapAfter(st, st', found.value, k);
      assert k in st.world.rows && st.world.rows[k].native == u.native ==> k == found.value;
    } else {
      SameGaps(st, st', k);
    }
  }

  lemma PlaceGap(env: Env, st: State, id: nat, o: InsertOutcome, k: Key)
    requires Proper(env) && Sound(st) && Indexes(env, st, false) && Expected(env, st, Place(id, o))
    ensures Missing(Step(env, st, Place(id, o)), k) <==> Missing(st, k) && !HealsGap(st, Place(id, o), k)
  {
    var c := st.calls[id];
    assert CallOk(st.world, c);
    if c.key == k {
      OwnPlaceGap(env, st, id, o);
    } else {
      OtherPlaceGap(env, st, id, o, k);
    }
  }

  /** The call's own key. */
  lemma OwnPlaceGap(env: Env, st: State, id: nat, o: InsertOutcome)
    requires Proper(env) && Sound(st) && Indexes(env, st, false) && Expected(env, st, Place(id, o))
    ensures var k := st.calls[id].key;
            Missing(Step(env, st, Place(id, o)), k) <==> Missing(st, k) && !st.calls[id].pc.Looking?
  {
    var c, st' := st.calls[id], Step(env, st, Place(id, o));
    var k := c.key;
    assert CallOk(st.world, c);
    if c.pc.Recording? {
      assert st'.calls[id] == Call(k, c.symbol, Installing(c.pc.native));
      assert BeingInstalled(st'.calls, k, c.pc.native);
    } else if c.pc.Installing? {
      assert BeingInstalled(st.calls, k, c.pc.native);
    } else if c.pc.Reserving? && k in st.world.rows {
      InstallersStay(st, st'.calls, id, k);
    }
  }

  /** A call that is not installing leaves those that are where they were. */
  lemma InstallersStay(st: State, calls: map<nat, Call>, id: nat, k: Key)
    requires id in st.calls && !st.calls[id].pc.Installing?
    requires forall i :: i in st.calls && i != id ==> i in calls && calls[i] == st.calls[i]
    requires forall i :: i in calls && i != id ==> i in st.calls
    requires id in calls ==> !calls[id].pc.Installing? || calls[id].key != k
    ensures forall n :: BeingInstalled(calls, k, n) <==> BeingInstalled(st.calls, k, n)
  {
    forall n ensures BeingInstalled(calls, k, n) <==> BeingInstalled(st.calls, k, n) {
      if BeingInstalled(calls, k, n) {
        var i :| i in calls && calls[i].key == k && calls[i].pc == Installing(n);
        assert i != id && st.calls[i] == calls[i];
      }
      if BeingInstalled(st.calls, k, n) {
        var i :| i in st.calls && st.calls[i].key == k && st.calls[i].pc == Installing(n);
        assert i != id && calls[i] == st.calls[i];
      }
    }
  }

  /** Another key. */
  lemma OtherPlaceGap(env: Env, st: State, id: nat, o: InsertOutcome, k: Key)
    requires Proper(env) && Sound(st) && Indexes(env, st, false) && Expected(env, st, Place(id, o))
             && st.calls[id].key != k
    ensures Missing(Step(env, st, Place(id, o)), k) <==> Missing(st, k)
  {
    var c, st' := st.calls[id], Step(env, st, Place(id, o));
    OtherPlaceRow(st, id, o, k);
    OtherPlaceCalls(env, st, id, o, k);
  }

  lemma OtherPlaceRow(st: State, id: nat, o: InsertOutcome, k: Key)
    requires Sound(st) && id in st.calls && st.calls[id].key != k
    ensures var w, w' := st.world, PlaceStep(st.world, st.calls[id], o).0;
            && (k in w'.rows <==> k in w.rows)
            && (k in w.rows ==> w'.rows[k] == w.rows[k])
            && (k in w.rows && w.rows[k].native != "" ==>
                  (w.rows[k].native in w'.session.identityByNative <==> w.rows[k].native in w.session.identityByNative))
  {
    var c := st.calls[id];
    assert CallOk(st.world, c);
    if c.key in st.world.rows { HydrateAdds(st.world.session, c.key, st.world.rows[c.key]); }
  }

  lemma OtherPlaceCalls(env: Env, st: State, id: nat, o: InsertOutcome, k: Key)
    requires Enabled(env, st, Place(id, o)) && st.calls[id].key != k
    ensures forall n :: BeingInstalled(Step(env, st, Place(id, o)).calls, k, n) <==> BeingInstalled(st.calls, k, n)
  {
    var calls := Step(env, st, Place(id, o)).calls;
    forall n ensures BeingInstalled(calls, k, n) <==> BeingInstalled(st.calls, k, n) {
      if BeingInstalled(calls, k, n) {
        var i :| i in calls && calls[i].key == k && calls[i].pc == Installing(n);
        assert i != id && st.calls[i] == calls[i];
      }
      if BeingInstalled(st.calls, k, n) {
        var i :| i in st.calls && st.calls[i].key == k && st.calls[i].pc == Installing(n);
        assert i != id && calls[i] == st.calls[i];
      }
    }
  }

  lemma AbortGap(env: Env, st: State, id: nat, k: Key)
    requires Sound(st) && Enabled(env, st, Abort(id))
    ensures Missing(Step(env, st, Abort(id)), k) <==> LeavesGap(st, Abort(id), k) || Missing(st, k)
  {
    var c, calls := st.calls[id], st.calls - {id};
    assert CallOk(st.world, c);
    if c.pc.Installing? && c.key == k {
      assert BeingInstalled(st.calls, k, c.pc.native);
      forall i | i in calls ensures !(calls[i].key == k && calls[i].pc.Installing?) { assert Apart(c, st.calls[i]); }
    } else {
      forall n ensures BeingInstalled(calls, k, n) <==> BeingInstalled(st.calls, k, n) {
        if BeingInstalled(st.calls, k, n) {
          var i :| i in st.calls && st.calls[i].key == k && st.calls[i].pc == Installing(n);
          assert i in calls && calls[i] == st.calls[i];
        }
      }
    }
  }

  lemma BeginGap(env: Env, st: State, e: Event, k: Key)
    requires Enabled(env, st, e) && e.BeginPlace?
    ensures Missing(Step(env, st, e), k) <==> Missing(st, k)
  {
    var calls := Step(env, st, e).calls;
    forall n ensures BeingInstalled(calls, k, n) <==> BeingInstalled(st.calls, k, n) {
      if BeingInstalled(st.calls, k, n) {
        var i :| i in st.calls && st.calls[i].key == k && st.calls[i].pc == Installing(n);
        assert calls[i] == st.calls[i];
      }
    }
  }

  /** The exact law of gaps for one step. */
  lemma StepGap(env: Env, st: State, e: Event, k: Key)
    requires Proper(env) && Sound(st) && Indexes(env, st, false) && Expected(env, st, e)
    ensures Missing(Step(env, st, e), k) <==> LeavesGap(st, e, k) || (Missing(st, k) && !HealsGap(st, e, k))
  {
    match e
    case Place(id, o) => PlaceGap(env, st, id, o, k);
    case OrderChanged(u, found) => UpdateGap(env, st, u, found, k);
    case Cancel(j) => CancelGap(env, st, j, k);
    case Filled(f, found, gap) => FilledGap(env, st, f, found, gap, k);
    case Restart(order) =>
      RestoreIndexes(env, order, st.world.rows);
    case BeginPlace(_, _, _) => BeginGap(env, st, e, k);
    case Abort(id) => AbortGap(env, st, id, k);
    case Publish => SameGaps(st, Step(env, st, e), k);
    case Crash =>
  }

  /** What each event of a run did about a gap at `k`. */
  ghost function GapTurns(env: Env, events: seq<Event>, k: Key): (turns: seq<Turn>)
    ensures |turns| == |events|
  {
    if events == [] then []
    else
      var n := |events| - 1;
      var before := Run(env, START, events[..n]);
      GapTurns(env, events[..n], k)
      + [if before.None? then Turn(false, false)
         else Turn(LeavesGap(before.value, events[n], k), HealsGap(before.value, events[n], k))]
  }

  lemma {:induction false} RunGap(env: Env, events: seq<Event>, st: State, k: Key)
    requires Proper(env) && Honestly(env, events, st)
    ensures Missing(st, k) <==> Latched(GapTurns(env, events, k))
  {
    if events != [] {
      var n := |events| - 1;
      var before := HonestStep(env, events, st);
      RunGap(env, events[..n], before, k);
      RunIndexes(env, events[..n], before, false);
      StepGap(env, before, events[n], k);
      LatchedSnoc(GapTurns(env, events[..n], k), Turn(LeavesGap(before, events[n], k), HealsGap(before, events[n], k)));
    }
  }

  /**
   * Exactly when the identity indexes are complete: a stored native id that no
   * call is about to index is indexed under its order unless an exception kept
   * it out and nothing has brought it in since.
   */
  lemma IndexesAreComplete(env: Env, events: seq<Event>, st: State, k: Key)
    requires Proper(env) && Honestly(env, events, st) && st.up
    requires k in st.world.rows && st.world.rows[k].native != ""
    requires !BeingInstalled(st.calls, k, st.world.rows[k].native)
    ensures var n, s := st.world.rows[k].native, st.world.session;
            && (n in s.identityByNative <==> !Latched(GapTurns(env, events, k)))
            && (n in s.identityByNative ==>
                  && s.identityByNative[n] == Identity(k, st.world.rows[k].symbol)
                  && k in s.nativeByIdentity && s.nativeByIdentity[k] == n)
  {
    RunGap(env, events, st, k);
    RunIndexes(env, events, st, false);
    var n, s := st.world.rows[k].native, st.world.session;
    if n in s.identityByNative {
      assert s.identityByNative[n].key == k;
    }
  }

  /** A first call up to its native call. */
  lemma StoredNotSent(env: Env, k: Key, symbol: string, o: InsertOutcome) returns (events: seq<Event>, st: State)
    ensures Honestly(env, events, st) && st.up
    ensures st.calls == map[0 := Call(k, symbol, Submitting)] && st.world.log.issued == {}
    ensures st.world.rows == map[k := NewRecord(symbol)] && st.world.session == EMPTY_SESSION
  {
    FirstStart(env);
    events, st := [Restart([])], START.(up := true);
    var e := BeginPlace(0, k, symbol);
    ExtendHonestly(env, events, st, e);
    events, st := events + [e], Step(env, st, e);
    ExtendHonestly(env, events, st, Place(0, o));
    events, st := events + [Place(0, o)], Step(env, st, Place(0, o));
    assert st.calls == map[0 := Call(k, symbol, Reserving)];
    ExtendHonestly(env, events, st, Place(0, o));
    events, st := events + [Place(0, o)], Step(env, st, Place(0, o));
  }

  /** Two lines further: the native id is stored, and the call is about to index it. */
  lemma StoredNotIndexed(env: Env, k: Key, symbol: string, n: string) returns (events: seq<Event>, st: State)
    requires n != ""
    ensures Honestly(env, events, st) && st.up
    ensures st.calls == map[0 := Call(k, symbol, Installing(n))]
    ensures st.world.rows == map[k := Record(symbol, n, "", "", Accepted, "")] && st.world.session == EMPTY_SESSION
  {
    var o := Answered(0, n);
    events, st := StoredNotSent(env, k, symbol, o);
    ExtendHonestly(env, events, st, Place(0, o));
    events, st := events + [Place(0, o)], Step(env, st, Place(0, o));
    assert st.calls == map[0 := Call(k, symbol, Recording(n))] && st.world.rows == map[k := NewRecord(symbol)];
    ExtendHonestly(env, events, st, Place(0, o));
    events, st := events + [Place(0, o)], Step(env, st, Place(0, o));
  }

  /**
   * An exception at that point does leave a gap, for every order: its native id
   * is stored, nobody is installing it, and no identity index names it.
   */
  lemma InterruptionLeavesGap(env: Env, k: Key, symbol: string, n: string) returns (events: seq<Event>, st: State)
    requires n != ""
    ensures Honestly(env, events, st) && st.up && st.calls == map[]
    ensures k in st.world.rows && st.world.rows[k].native == n
    ensures n !in st.world.session.identityByNative && k !in st.world.session.nativeByIdentity
  {
    events, st := StoredNotIndexed(env, k, symbol, n);
    ExtendHonestly(env, events, st, Abort(0));
    events, st := events + [Abort(0)], Step(env, st, Abort(0));
  }

  lemma TargetIndexed(env: Env, st: State, k: Key)
    requires Proper(env) && Sound(st) && Indexes(env, st, false) && st.up
    requires k in st.world.rows && st.world.rows[k].native != ""
    ensures st.world.rows[k].native in CancelTarget(st.world, k).0.identityByNative
  {
    HydrateIndexes(env, st.world.rows, st.world.session, k);
  }

  /** An interrupted installation heals: a cancel for the key leaves the record indexed. */
  lemma CancelHeals(env: Env, events: seq<Event>, st: State, k: Key)
    requires Proper(env) && Honestly(env, events, st) && st.up
    requires k in st.world.rows && st.world.rows[k].native != ""
    ensures st.world.rows[k].native in CancelOrder(st.world, k).0.session.identityByNative
  {
    RunIndexes(env, events, st, false);
    TargetIndexed(env, st, k);
    CancelSession(st.world, k);
    assert CancelOrder(st.world, k).0.session.identityByNative == CancelTarget(st.world, k).0.identityByNative;
  }

  /** So does any update of the native id. */
  lemma UpdateHeals(env: Env, events: seq<Event>, st: State, u: OrderUpdate, found: Option<Key>)
    requires Proper(env) && Honestly(env, events, st) && Expected(env, st, OrderChanged(u, found))
    requires u.native != "" && found.Some?
    ensures u.native in UpdateOrder(st.world, u, found).session.identityByNative
  {
    RunIndexes(env, events, st, false);
    UpdateSession(env, st, u, found, false);
    assert UpdateOrder(st.world, u, found).session.identityByNative == Indexed(st.world, u, found).identityByNative;
  }

  /** The restored session does not depend on the order in which the store lists its rows. */
  lemma RestoreIgnoresOrder(env: Env, events: seq<Event>, st: State, a: seq<Key>, b: seq<Key>)
    requires Proper(env) && Honestly(env, events, st)
    requires Enumerates(a, st.world.rows.Keys) && Enumerates(b, st.world.rows.Keys)
    ensures HydrateAll(a, st.world.rows) == HydrateAll(b, st.world.rows)
  {
    RunIndexes(env, events, st, false);
    var rows := st.world.rows;
    RestoreIndexes(env, a, rows);
    RestoreIndexes(env, b, rows);
    RestoredWithin(env, rows, HydrateAll(a, rows), HydrateAll(b, rows), b);
    RestoredWithin(env, rows, HydrateAll(b, rows), HydrateAll(a, rows), a);
    SameSession(env, HydrateAll(a, rows), HydrateAll(b, rows));
  }

  lemma RestoredWithin(env: Env, rows: map<Key, Record>, s: Session, t: Session, order: seq<Key>)
    requires Named(rows, s) && Numbered(env, s) && Named(rows, t) && Numbered(env, t)
    requires UniqueNatives(rows) && Enumerates(order, rows.Keys)
    requires forall n :: n in s.orderNoByNative ==>
               exists k :: k in rows && rows[k].native == n && rows[k].orderNo != ""
    requires forall k :: k in order ==>
               && (rows[k].native != "" ==> rows[k].native in t.identityByNative)
               && (rows[k].orderNo != "" ==> rows[k].native in t.orderNoByNative)
    ensures forall n :: n in s.identityByNative ==>
              n in t.identityByNative && t.identityByNative[n] == s.identityByNative[n]
    ensures forall n :: n in s.orderNoByNative ==> n in t.orderNoByNative
    ensures forall k :: k in s.nativeByIdentity ==>
              k in t.nativeByIdentity && t.nativeByIdentity[k] == s.nativeByIdentity[k]
  {
    forall n | n in s.identityByNative
      ensures n in t.identityByNative && t.identityByNative[n] == s.identityByNative[n]
    {
      var k := s.identityByNative[n].key;
      assert k in order;
      assert t.identityByNative[n].key == k;
    }
  }

  lemma SameSession(env: Env, s: Session, t: Session)
    requires Numbered(env, s) && Numbered(env, t) && s.pendingCancels == t.pendingCancels
    requires forall n :: n in s.identityByNative <==> n in t.identityByNative
    requires forall n :: n in s.identityByNative && n in t.identityByNative ==>
               t.identityByNative[n] == s.identityByNative[n]
    requires forall k :: k in s.nativeByIdentity <==> k in t.nativeByIdentity
    requires forall k :: k in s.nativeByIdentity && k in t.nativeByIdentity ==>
               t.nativeByIdentity[k] == s.nativeByIdentity[k]
    requires forall n :: n in s.orderNoByNative <==> n in t.orderNoByNative
    ensures s == t
  {
    assert s.identityByNative == t.identityByNative;
    assert s.nativeByIdentity == t.nativeByIdentity;
    assert forall n :: n in s.orderNoByNative ==> env.pair(n) == (s.orderNoByNative[n], s.serverFlagByNative[n]);
    assert s.orderNoByNative == t.orderNoByNative;
    assert s.serverFlagByNative == t.serverFlagByNative;
    forall p | p in s.nativeByOrderKey
      ensures p in t.nativeByOrderKey && t.nativeByOrderKey[p] == s.nativeByOrderKey[p]
    {
      assert s.nativeByOrderKey[p] in t.orderNoByNative;
    }
    forall p | p in t.nativeByOrderKey ensures p in s.nativeByOrderKey {
      assert t.nativeByOrderKey[p] in s.orderNoByNative;
    }
    assert s.nativeByOrderKey == t.nativeByOrderKey;
  }
}
