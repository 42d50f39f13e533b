/** At-most-once submission and the status machine, over every run. */
module SubmissionSafety {
  import opened Prelude
  import opened OrderStore
  import opened OrderLifecycle
  import T = TradeStore

  /** The call has reserved its key and nobody else may touch the record. */
  predicate Owns(c: Call) {
    !c.pc.Looking? && !c.pc.Reserving?
  }

  predicate Unsent(s: Status) {
    s.PendingSubmit? || s.SubmitFailed?
  }

  ghost predicate Reserved(w: World, c: Call) {
    c.key in w.rows && w.rows[c.key] == NewRecord(c.symbol)
  }

  ghost predicate CallOk(w: World, c: Call) {
    match c.pc
    case Looking => true
    case Reserving => true
    case Submitting => Reserved(w, c) && c.key !in w.log.inserts
    case Failing(_) => Reserved(w, c) && c.key in w.log.inserts
    case Recording(n) => Reserved(w, c) && c.key in w.log.inserts && n != ""
    case Installing(n) =>
      && c.key in w.rows && c.key in w.log.inserts
      && n != "" && w.rows[c.key].native == n && w.rows[c.key].symbol == c.symbol
  }

  /** Distinct calls own distinct keys. */
  ghost predicate Apart(c: Call, d: Call) {
    Owns(c) && Owns(d) ==> c.key != d.key
  }

  ghost predicate RowOk(w: World, r: Record) {
    && (r.native == "" <==> Unsent(r.status))
    && (r.native == "" ==> r.orderNo == "" && r.serverFlag == "")
  }

  ghost predicate Rows(w: World) {
    forall k :: k in w.rows ==> RowOk(w, w.rows[k])
  }

  ghost predicate Submissions(w: World) {
    NoDup(w.log.inserts) && forall k :: k in w.log.inserts ==> k in w.rows
  }

  ghost predicate Calls(w: World, calls: map<nat, Call>) {
    && (forall i :: i in calls ==> CallOk(w, calls[i]))
    && forall i, j {:trigger Apart(calls[i], calls[j])} :: i in calls && j in calls && i != j ==>
         Apart(calls[i], calls[j])
  }

  ghost predicate Safe(st: State) {
    Rows(st.world) && Submissions(st.world) && Calls(st.world, st.calls)
  }

  // ---- What no step may do to a stored order ----

  /** Records are never dropped, native ids never change, a failed submission stays as it is. */
  ghost predicate Keeps(before: map<Key, Record>, after: map<Key, Record>) {
    forall k :: k in before ==>
      && k in after
      && after[k].symbol == before[k].symbol
      && (before[k].native != "" ==> after[k].native == before[k].native)
      && (before[k].status.SubmitFailed? ==> after[k] == before[k])
      && (before[k].orderNo != "" ==> after[k].orderNo != "")
  }

  lemma PlaceKeeps(st: State, id: nat, o: InsertOutcome)
    requires Safe(st) && id in st.calls
    ensures Keeps(st.world.rows, PlaceStep(st.world, st.calls[id], o).0.rows)
  {
    var c := st.calls[id];
    assert CallOk(st.world, c);
  }

  lemma UpdateKeeps(st: State, u: OrderUpdate, found: Option<Key>)
    requires Safe(st) && (u.native != "" ==> Answers(st.world.rows, ByNative(u.native), found))
    ensures Keeps(st.world.rows, UpdateOrder(st.world, u, found).rows)
  {
    if found.Some? && u.native != "" {
      assert RowOk(st.world, st.world.rows[found.value]);
    }
  }

  /** Events that leave the order table, the submissions and the other calls alone. */
  predicate Quiet(e: Event) {
    e.BeginPlace? || e.Abort? || e.Cancel? || e.Filled? || e.Publish? || e.Crash? || e.Restart?
  }

  ghost predicate SameOrders(w: World, w': World) {
    && w'.rows == w.rows
    && w'.log.inserts == w.log.inserts
    && w'.log.issued == w.log.issued
    && w'.log.replies == w.log.replies
  }

  lemma CancelQuiet(w: World, k: Key)
    ensures SameOrders(w, CancelOrder(w, k).0)
  {
  }

  lemma FillQuiet(env: Env, w: World, f: Fill, found: Option<Key>, gap: nat)
    ensures SameOrders(w, RecordFill(env.digest, w, f, found, gap).0)
  {
  }

  lemma QuietStep(env: Env, st: State, e: Event)
    requires Enabled(env, st, e) && Quiet(e)
    ensures SameOrders(st.world, Step(env, st, e).world)
  {
    if e.Cancel? {
      CancelQuiet(st.world, e.key);
    } else if e.Filled? {
      FillQuiet(env, st.world, e.fill, e.found, e.gap);
    }
  }

  lemma QuietCalls(env: Env, st: State, e: Event)
    requires Enabled(env, st, e) && Quiet(e)
    ensures var st' := Step(env, st, e);
            forall i :: i in st'.calls ==>
              if e.BeginPlace? && i == e.id then st'.calls[i].pc.Looking?
              else i in st.calls && st'.calls[i] == st.calls[i]
  {
  }

  lemma StepKeeps(env: Env, st: State, e: Event)
    requires Safe(st) && Enabled(env, st, e)
    ensures Keeps(st.world.rows, Step(env, st, e).world.rows)
  {
    if e.Place? {
      PlaceKeeps(st, e.id, e.outcome);
    } else if e.OrderChanged? {
      UpdateKeeps(st, e.update, e.found);
    } else {
      QuietStep(env, st, e);
    }
  }

  // ---- Preservation ----

  lemma PlaceRows(st: State, id: nat, o: InsertOutcome)
    requires Safe(st) && id in st.calls
    ensures Rows(PlaceStep(st.world, st.calls[id], o).0)
  {
    var c := st.calls[id];
    assert CallOk(st.world, c);
    var w' := PlaceStep(st.world, c, o).0;
    forall k | k in w'.rows ensures RowOk(w', w'.rows[k]) {
      if k in st.world.rows { assert RowOk(st.world, st.world.rows[k]); }
    }
  }

  lemma PlaceSubmissions(st: State, id: nat, o: InsertOutcome)
    requires Safe(st) && id in st.calls
    ensures Submissions(PlaceStep(st.world, st.calls[id], o).0)
  {
    assert CallOk(st.world, st.calls[id]);
  }

  /** The call that steps is left in a consistent place. */
  lemma PlaceSelf(st: State, id: nat, o: InsertOutcome)
    requires Safe(st) && id in st.calls
    ensures var (w', next) := PlaceStep(st.world, st.calls[id], o); next.Some? ==> CallOk(w', next.value)
  {
    var c := st.calls[id];
    assert CallOk(st.world, c);
    if c.pc.Reserving? {
      assert forall k :: k in st.world.log.inserts ==> k in st.world.rows;
    }
  }

  /** The other calls are not disturbed by it. */
  lemma PlaceOther(st: State, id: nat, o: InsertOutcome, j: nat)
    requires Safe(st) && id in st.calls && j in st.calls && j != id
    ensures var (w', next) := PlaceStep(st.world, st.calls[id], o);
            && CallOk(w', st.calls[j])
            && (next.Some? ==> Apart(next.value, st.calls[j]) && Apart(st.calls[j], next.value))
  {
    var c, d := st.calls[id], st.calls[j];
    assert CallOk(st.world, c) && CallOk(st.world, d) && Apart(c, d) && Apart(d, c);
  }

  lemma PlaceSafe(env: Env, st: State, id: nat, o: InsertOutcome)
    requires Safe(st) && Enabled(env, st, Place(id, o))
    ensures Safe(Step(env, st, Place(id, o)))
  {
    PlaceRows(st, id, o);
    PlaceSubmissions(st, id, o);
    PlaceSelf(st, id, o);
    var st' := Step(env, st, Place(id, o));
    var (w', next) := PlaceStep(st.world, st.calls[id], o);
    forall j | j in st'.calls ensures CallOk(st'.world, st'.calls[j]) {
      if j != id { PlaceOther(st, id, o, j); }
    }
    forall i, j | i in st'.calls && j in st'.calls && i != j ensures Apart(st'.calls[i], st'.calls[j]) {
      if i == id { PlaceOther(st, id, o, j); }
      else if j == id { PlaceOther(st, id, o, i); }
      else { assert Apart(st.calls[i], st.calls[j]); }
    }
  }

  lemma UpdateRecord(w: World, u: OrderUpdate, found: Option<Key>, k: Key)
    requires k in w.rows && RowOk(w, w.rows[k]) && Reported(u.status)
    requires u.native != "" ==> Answers(w.rows, ByNative(u.native), found)
    ensures var w' := UpdateOrder(w, u, found);
            && k in w'.rows && w'.rows[k].native == w.rows[k].native && RowOk(w', w'.rows[k])
            && (w.rows[k].native == "" ==> w'.rows[k] == w.rows[k])
            && w'.rows[k].symbol == w.rows[k].symbol
  {
  }

  lemma UpdateLeaves(w: World, u: OrderUpdate, found: Option<Key>)
    ensures var w' := UpdateOrder(w, u, found);
            && w'.log.inserts == w.log.inserts && w'.log.issued == w.log.issued
            && w'.rows.Keys == w.rows.Keys
  {
  }

  lemma UpdateSafe(env: Env, st: State, u: OrderUpdate, found: Option<Key>)
    requires Safe(st) && Enabled(env, st, OrderChanged(u, found))
    ensures Safe(Step(env, st, OrderChanged(u, found)))
  {
    var w, w' := st.world, UpdateOrder(st.world, u, found);
    UpdateLeaves(w, u, found);
    forall k | k in w'.rows
      ensures w'.rows[k].native == w.rows[k].native && RowOk(w', w'.rows[k])
      ensures w.rows[k].native == "" ==> w'.rows[k] == w.rows[k]
      ensures w'.rows[k].symbol == w.rows[k].symbol
    {
      UpdateRecord(w, u, found, k);
    }
    forall i | i in st.calls ensures CallOk(w', st.calls[i]) {
      assert CallOk(w, st.calls[i]);
    }
  }

  lemma SameOrdersSafe(st: State, st': State)
    requires Safe(st)
    requires st'.world.rows == st.world.rows && st'.world.log.inserts == st.world.log.inserts
    requires st'.world.log.issued == st.world.log.issued
    requires forall i :: i in st'.calls ==> st'.calls[i].pc.Looking? || (i in st.calls && st'.calls[i] == st.calls[i])
    ensures Safe(st')
  {
    forall i | i in st'.calls ensures CallOk(st'.world, st'.calls[i]) {
      assert i in st.calls ==> CallOk(st.world, st.calls[i]);
    }
    forall i, j | i in st'.calls && j in st'.calls && i != j ensures Apart(st'.calls[i], st'.calls[j]) {
      assert i in st.calls && j in st.calls ==> Apart(st.calls[i], st.calls[j]);
    }
    forall k | k in st'.world.rows ensures RowOk(st'.world, st'.world.rows[k]) {
      assert RowOk(st.world, st.world.rows[k]);
    }
  }

  lemma StepSafe(env: Env, st: State, e: Event)
    requires Safe(st) && Enabled(env, st, e)
    ensures Safe(Step(env, st, e))
  {
    if e.Place? {
      PlaceSafe(env, st, e.id, e.outcome);
    } else if e.OrderChanged? {
      UpdateSafe(env, st, e.update, e.found);
    } else {
      QuietStep(env, st, e);
      QuietCalls(env, st, e);
      SameOrdersSafe(st, Step(env, st, e));
    }
  }

  lemma {:induction false} RunSafe(env: Env, events: seq<Event>, st: State)
    requires Reaches(env, START, events, st)
    ensures Safe(st)
  {
    if events != [] {
      var before := Run(env, START, events[..|events| - 1]).value;
      RunSafe(env, events[..|events| - 1], before);
      StepSafe(env, before, events[|events| - 1]);
    }
  }

  // ---- Unique native ids ----

  /** Stored and recorded native ids were handed out, once each. */
  ghost predicate Identified(st: State) {
    && UniqueNatives(st.world.rows)
    && (forall k :: k in st.world.rows && st.world.rows[k].native != "" ==>
         st.world.rows[k].native in st.world.log.issued)
    && (forall i :: i in st.calls ==> Pending(st.world, st.calls[i]))
    && forall i, j {:trigger SameId(st.calls[i], st.calls[j])} :: i in st.calls && j in st.calls && i != j ==>
         !SameId(st.calls[i], st.calls[j])
  }

  /** A native id about to be stored is nobody else's. */
  ghost predicate Pending(w: World, c: Call) {
    c.pc.Recording? ==> c.pc.native in w.log.issued && forall k :: k in w.rows ==> w.rows[k].native != c.pc.native
  }

  ghost predicate SameId(c: Call, d: Call) {
    c.pc.Recording? && d.pc.Recording? && c.pc.native == d.pc.native
  }

  lemma PlaceIdentified(env: Env, st: State, id: nat, o: InsertOutcome)
    requires Safe(st) && Identified(st) && Enabled(env, st, Place(id, o)) && NewId(st, Place(id, o))
    ensures Identified(Step(env, st, Place(id, o)))
  {
    var st', c := Step(env, st, Place(id, o)), st.calls[id];
    assert CallOk(st.world, c) && Pending(st.world, c);
    forall j | j in st'.calls ensures Pending(st'.world, st'.calls[j]) {
      if j != id { PlacePending(st, id, o, j); }
    }
    forall i, j | i in st'.calls && j in st'.calls && i != j ensures !SameId(st'.calls[i], st'.calls[j]) {
      if i == id { assert Pending(st.world, st.calls[j]) && !SameId(st.calls[i], st.calls[j]); }
      else if j == id { assert Pending(st.world, st.calls[i]) && !SameId(st.calls[i], st.calls[j]); }
      else { assert !SameId(st.calls[i], st.calls[j]); }
    }
  }

  lemma PlacePending(st: State, id: nat, o: InsertOutcome, j: nat)
    requires Safe(st) && Identified(st) && id in st.calls && j in st.calls && j != id
    ensures Pending(PlaceStep(st.world, st.calls[id], o).0, st.calls[j])
  {
    assert Pending(st.world, st.calls[j]) && !SameId(st.calls[id], st.calls[j]) && CallOk(st.world, st.calls[id]);
  }

  /** Steps that store no native id and record none. */
  lemma SameIdsIdentified(st: State, st': State)
    requires Identified(st) && st'.world.log.issued == st.world.log.issued
    requires st'.world.rows.Keys == st.world.rows.Keys
    requires forall k :: k in st.world.rows ==> st'.world.rows[k].native == st.world.rows[k].native
    requires forall i :: i in st'.calls ==> st'.calls[i].pc.Looking? || (i in st.calls && st'.calls[i] == st.calls[i])
    ensures Identified(st')
  {
    forall i | i in st'.calls ensures Pending(st'.world, st'.calls[i]) {
      assert i in st.calls ==> Pending(st.world, st.calls[i]);
    }
    forall i, j | i in st'.calls && j in st'.calls && i != j ensures !SameId(st'.calls[i], st'.calls[j]) {
      assert i in st.calls && j in st.calls ==> !SameId(st.calls[i], st.calls[j]);
    }
  }

  lemma StepIdentified(env: Env, st: State, e: Event)
    requires Safe(st) && Identified(st) && Enabled(env, st, e) && NewId(st, e)
    ensures Identified(Step(env, st, e))
  {
    if e.Place? {
      PlaceIdentified(env, st, e.id, e.outcome);
    } else if e.OrderChanged? {
      UpdateLeaves(st.world, e.update, e.found);
      forall k | k in st.world.rows
        ensures UpdateOrder(st.world, e.update, e.found).rows[k].native == st.world.rows[k].native
      {
        UpdateRecord(st.world, e.update, e.found, k);
      }
      SameIdsIdentified(st, Step(env, st, e));
    } else {
      QuietStep(env, st, e);
      QuietCalls(env, st, e);
      SameIdsIdentified(st, Step(env, st, e));
    }
  }

  lemma {:induction false} RunIdentified(env: Env, events: seq<Event>, st: State)
    requires Reaches(env, START, events, st) && NewIds(env, events)
    ensures Identified(st)
  {
    if events != [] {
      var n := |events| - 1;
      var before := Run(env, START, events[..n]).value;
      NewIdsPrefix(env, events, n);
      RunIdentified(env, events[..n], before);
      RunSafe(env, events[..n], before);
      StepIdentified(env, before, events[n]);
    }
  }

  /** What the order indexes build on. */
  ghost predicate Sound(st: State) {
    Safe(st) && Identified(st)
  }

  // ---- Theorems ----

  /**
   * Over every interleaving, crash and restart, the exchange receives at most
   * one `insertOrder` per idempotency key, and only for a reserved key.
   */
  lemma AtMostOnce(env: Env, events: seq<Event>, st: State)
    requires Reaches(env, START, events, st)
    ensures NoDup(st.world.log.inserts)
    ensures forall k :: k in st.world.log.inserts ==> k in st.world.rows
  {
    RunSafe(env, events, st);
  }

  /**
   * A key that was ever submitted is never submitted again, a crash right after
   * the exchange accepted it included: any later call for it ends at once with a
   * duplicate reply, which asks for recovery exactly when no native id was stored.
   */
  lemma NeverReplayed(env: Env, events: seq<Event>, st: State, id: nat, o: InsertOutcome)
    requires Reaches(env, START, events, st) && id in st.calls && st.calls[id].key in st.world.log.inserts
    requires st.calls[id].pc.Looking? || st.calls[id].pc.Reserving?
    ensures var k := st.calls[id].key;
            var (w', next) := PlaceStep(st.world, st.calls[id], o);
            && k in st.world.rows && next.None? && w'.rows == st.world.rows && w'.log.inserts == st.world.log.inserts
            && var r := st.world.rows[k];
               w'.log.replies == st.world.log.replies + [Duplicate(k, r.native, r.native == "", r.status, r.message)]
               && (r.native == "" <==> Unsent(r.status))
  {
    AtMostOnce(env, events, st);
    StatusMachine(env, events, st, st.calls[id].key);
  }

  /**
   * A record has no native id exactly while it is PENDING_SUBMIT or
   * SUBMIT_FAILED; no two records share one as long as the exchange repeats none.
   */
  lemma StatusMachine(env: Env, events: seq<Event>, st: State, k: Key)
    requires Reaches(env, START, events, st) && k in st.world.rows
    ensures st.world.rows[k].native == "" <==> Unsent(st.world.rows[k].status)
    ensures NewIds(env, events) ==>
              forall l :: l in st.world.rows && l != k && st.world.rows[k].native != "" ==>
                st.world.rows[l].native != st.world.rows[k].native
  {
    RunSafe(env, events, st);
    assert RowOk(st.world, st.world.rows[k]);
    if NewIds(env, events) { RunIdentified(env, events, st); }
  }

  lemma KeepsTransitive(a: map<Key, Record>, b: map<Key, Record>, c: map<Key, Record>)
    requires Keeps(a, b) && Keeps(b, c)
    ensures Keeps(a, c)
  {
  }

  /**
   * Later in the same run a reserved key is still stored, its native id once
   * set is the same, and a SUBMIT_FAILED record is unchanged.
   */
  lemma {:induction false} HistoryKeeps(env: Env, events: seq<Event>, n: nat, early: State, late: State)
    requires n <= |events| && Reaches(env, START, events[..n], early) && Reaches(env, START, events, late)
    ensures Keeps(early.world.rows, late.world.rows)
  {
    if n == |events| {
      assert events[..n] == events;
    } else {
      var m := |events| - 1;
      var before := Run(env, START, events[..m]).value;
      assert events[..m][..n] == events[..n];
      HistoryKeeps(env, events[..m], n, early, before);
      RunSafe(env, events[..m], before);
      StepKeeps(env, before, events[m]);
      KeepsTransitive(early.world.rows, before.world.rows, late.world.rows);
    }
  }

  /** A duplicate reply asks for recovery exactly when no native id was ever stored. */
  predicate ReplyOk(r: Reply) {
    r.Duplicate? ==> (r.recoveryRequired <==> r.native == "") && (r.recoveryRequired <==> Unsent(r.status))
  }

  lemma PlaceReplies(st: State, id: nat, o: InsertOutcome)
    requires Safe(st) && id in st.calls
    ensures var replies, replies' := st.world.log.replies, PlaceStep(st.world, st.calls[id], o).0.log.replies;
            replies' == replies
              || (|replies'| == |replies| + 1 && replies'[..|replies|] == replies && ReplyOk(replies'[|replies|]))
  {
    var c := st.calls[id];
    if c.key in st.world.rows {
      assert RowOk(st.world, st.world.rows[c.key]);
    }
  }

  lemma OtherReplies(env: Env, st: State, e: Event)
    requires Enabled(env, st, e) && !e.Place?
    ensures Step(env, st, e).world.log.replies == st.world.log.replies
  {
    if !e.OrderChanged? { QuietStep(env, st, e); }
  }

  /** Every duplicate reply of a run asks for recovery exactly when the record it reports was never accepted. */
  lemma {:induction false} DuplicateReplies(env: Env, events: seq<Event>, st: State)
    requires Reaches(env, START, events, st)
    ensures forall i :: 0 <= i < |st.world.log.replies| ==> ReplyOk(st.world.log.replies[i])
  {
    if events != [] {
      var n := |events| - 1;
      var before := Run(env, START, events[..n]).value;
      DuplicateReplies(env, events[..n], before);
      RunSafe(env, events[..n], before);
      if events[n].Place? {
        PlaceReplies(before, events[n].id, events[n].outcome);
        var replies := before.world.log.replies;
        assert forall i :: 0 <= i < |replies| ==> st.world.log.replies[i] == replies[i];
      } else {
        OtherReplies(env, before, events[n]);
      }
    }
  }
}
