/** The chain of queries behind `is_ready`, from login to the order snapshot. */
module InitialSync {
  import opened Prelude

  datatype Query = Account | Fund | Position | Orders

  /** How many queries of each kind are unanswered. */
  datatype Open = Open(account: nat, fund: nat, position: nat, orders: nat) {
    predicate Has(q: Query) {
      match q
      case Account => account > 0
      case Fund => fund > 0
      case Position => position > 0
      case Orders => orders > 0
    }

    function Plus(q: Query): Open {
      match q
      case Account => this.(account := account + 1)
      case Fund => this.(fund := fund + 1)
      case Position => this.(position := position + 1)
      case Orders => this.(orders := orders + 1)
    }

    function Minus(q: Query): Open {
      if !Has(q) then this
      else
        match q
        case Account => this.(account := account - 1)
        case Fund => this.(fund := fund - 1)
        case Position => this.(position := position - 1)
        case Orders => this.(orders := orders - 1)
    }

    function And(o: Open): Open {
      Open(account + o.account, fund + o.fund, position + o.position, orders + o.orders)
    }
  }

  /** What was delivered since the last reset, in order. */
  datatype Mark = Completed(query: Query) | Failed(query: Query)

  /**
   * The session's events; `outstanding`: queries sent on the current API and
   * not answered yet; `marks`: history since the last reset; `passed`: client
   * queries that passed the readiness check since the last reset and were not
   * sent yet; `stale`: those that passed it before.
   */
  datatype Sync = Sync(
    mdEnabled: bool, mdReady: bool, tdReady: bool, accountReady: bool, synced: bool, closing: bool, apiUp: bool,
    outstanding: Open, marks: seq<Mark>, passed: Open, stale: Open)

  predicate IsReady(s: Sync) {
    (!s.mdEnabled || s.mdReady) && s.tdReady && s.accountReady && s.synced && !s.closing
  }

  function Ask(s: Sync, q: Query): Sync {
    s.(outstanding := s.outstanding.Plus(q))
  }

  function Passed(s: Sync, q: Query): Sync {
    s.(passed := s.passed.Plus(q))
  }

  function Sent(s: Sync, q: Query, late: bool): Sync {
    var s' := Ask(s, q);
    if late then s'.(stale := s.stale.Minus(q)) else s'.(passed := s.passed.Minus(q))
  }

  /** One row of an answer; `hasData` is false for an empty row. */
  datatype Row = Row(ok: bool, last: bool, hasData: bool)

  function Marked(s: Sync, q: Query, row: Row): Sync {
    if !row.ok then s.(marks := s.marks + [Failed(q)])
    else if row.last then s.(marks := s.marks + [Completed(q)])
    else s
  }

  /** An error or a last row answers the query. */
  function Consumed(s: Sync, q: Query, row: Row): Sync {
    if !row.ok || row.last then s.(outstanding := s.outstanding.Minus(q)) else s
  }

  function OnTdReady(s: Sync): Sync {
    Ask(s.(tdReady := true), Account)
  }

  /** The callbacks' own effect on a row of each query. */
  function OnRow(s: Sync, q: Query, row: Row): Sync {
    if !row.ok then s
    else
      match q
      case Account => if row.hasData then Ask(s.(accountReady := true), Fund) else s
      case Fund => if row.last && s.apiUp && !s.synced then Ask(s, Position) else s
      case Position => if row.last && s.apiUp && !s.synced then Ask(s, Orders) else s
      case Orders => if row.last then s.(synced := true) else s
  }

  function Response(s: Sync, q: Query, row: Row): Sync {
    OnRow(Consumed(Marked(s, q, row), q, row), q, row)
  }

  /** `connect`: close the old API, clear every event, open a new one. */
  function Reset(s: Sync): Sync {
    Sync(s.mdEnabled, false, false, false, false, s.closing, true, Open(0, 0, 0, 0), [], Open(0, 0, 0, 0),
      s.stale.And(s.passed))
  }

  function Disconnect(s: Sync, md: bool): Sync {
    if md then s.(mdReady := false) else s.(tdReady := false, accountReady := false)
  }

  function Close(s: Sync): Sync {
    s.(closing := true, apiUp := false, mdReady := false, tdReady := false, accountReady := false,
       synced := false, outstanding := Open(0, 0, 0, 0))
  }

  class SyncSession {
    const mdEnabled: bool
    var mdReady: bool
    var tdReady: bool
    var accountReady: bool
    var synced: bool
    var closing: bool
    var apiUp: bool
    var queryError: Option<Query>
    ghost var outstanding: Open
    ghost var marks: seq<Mark>
    ghost var passed: Open
    ghost var stale: Open

    ghost function View(): Sync
      reads this
    {
      Sync(mdEnabled, mdReady, tdReady, accountReady, synced, closing, apiUp, outstanding, marks, passed, stale)
    }

    constructor (mdEnabled: bool)
      ensures View() == Start(mdEnabled)
    {
      this.mdEnabled := mdEnabled;
      mdReady, tdReady, accountReady, synced, closing, apiUp := false, false, false, false, false, false;
      queryError, outstanding, marks := None, Open(0, 0, 0, 0), [];
      passed, stale := Open(0, 0, 0, 0), Open(0, 0, 0, 0);
    }

    method Ready() returns (r: bool)
      ensures r == IsReady(View())
    {
      r := (!mdEnabled || mdReady) && tdReady && accountReady && synced && !closing;
    }

    /** `_require_ready` at the head of a client query. */
    method RequireReady(q: Query) returns (ok: bool)
      modifies this`passed
      ensures ok == IsReady(old(View()))
      ensures View() == if ok then Passed(old(View()), q) else old(View())
    {
      ok := Ready();
      if ok {
        passed := passed.Plus(q);
      }
    }

    /** The native call at its end; `late`: the check came before the last reset. */
    method SendQuery(q: Query, ghost late: bool)
      requires apiUp && if late then stale.Has(q) else passed.Has(q)
      modifies this`outstanding, this`passed, this`stale
      ensures View() == Sent(old(View()), q, late)
    {
      outstanding := outstanding.Plus(q);
      if late {
        stale := stale.Minus(q);
      } else {
        passed := passed.Minus(q);
      }
    }

    method ResetConnectionState()
      modifies this
      ensures View() == Reset(old(View()))
    {
      mdReady, tdReady, accountReady, synced := false, false, false, false;
      apiUp := true;
      outstanding, marks := Open(0, 0, 0, 0), [];
      passed, stale := Open(0, 0, 0, 0), stale.And(passed);
    }

    method TdReady()
      modifies this
      ensures View() == OnTdReady(old(View()))
    {
      tdReady := true;
      outstanding := outstanding.Plus(Account);
    }

    /** `_query_failed`: the waiter is released with an error, nothing else is asked. */
    method QueryFailed(q: Query)
      modifies this`queryError
      ensures queryError == Some(if q.Account? then Fund else q)
    {
      queryError := Some(if q.Account? then Fund else q);
    }

    /** Bookkeeping of the history: a row arrived. */
    ghost method Deliver(q: Query, row: Row)
      modifies this`marks, this`outstanding
      ensures View() == Consumed(Marked(old(View()), q, row), q, row)
    {
      marks, outstanding := Marked(View(), q, row).marks, Consumed(View(), q, row).outstanding;
    }

    method AccountResponse(row: Row)
      modifies this
      ensures View() == Response(old(View()), Account, row)
    {
      Deliver(Account, row);
      if !row.ok {
        QueryFailed(Account);
        return;
      }
      if !row.hasData {
        return;
      }
      accountReady := true;
      outstanding := outstanding.Plus(Fund);
    }

    method FundResponse(row: Row)
      modifies this
      ensures View() == Response(old(View()), Fund, row)
    {
      Deliver(Fund, row);
      if !row.ok {
        QueryFailed(Fund);
        return;
      }
      if row.last && apiUp && !synced {
        outstanding := outstanding.Plus(Position);
      }
    }

    method PositionResponse(row: Row)
      modifies this
      ensures View() == Response(old(View()), Position, row)
    {
      Deliver(Position, row);
      if !row.ok {
        QueryFailed(Position);
        return;
      }
      if row.last && apiUp && !synced {
        outstanding := outstanding.Plus(Orders);
      }
    }

    method OrderResponse(row: Row)
      modifies this
      ensures View() == Response(old(View()), Orders, row)
    {
      Deliver(Orders, row);
      if !row.ok {
        QueryFailed(Orders);
        return;
      }
      if row.last {
        synced := true;
      }
    }

    method OnDisconnect(md: bool)
      modifies this
      ensures View() == Disconnect(old(View()), md)
    {
      if md {
        mdReady := false;
      } else {
        tdReady, accountReady := false, false;
      }
    }

    method CloseSession()
      modifies this
      ensures old(closing) ==> View() == old(View())
      ensures !old(closing) ==> View() == Close(old(View()))
    {
      if closing {
        return;
      }
      closing, apiUp := true, false;
      mdReady, tdReady, accountReady, synced := false, false, false, false;
      outstanding := Open(0, 0, 0, 0);
    }
  }

  // ---- Runs ----

  datatype Event =
    | Connect
    | MdIsReady
    | TdIsReady
    | Answer(query: Query, row: Row)
    | Dropped(md: bool)
    | Check(query: Query)
    | Send(query: Query, late: bool)
    | Shut

  /**
   * Every row answers a query outstanding on the current API. A client's query
   * checks readiness first and is sent later, maybe after a reset.
   */
  ghost predicate Enabled(s: Sync, e: Event) {
    match e
    case Connect => !s.closing
    case MdIsReady => s.apiUp
    case TdIsReady => s.apiUp
    case Answer(q, _) => s.outstanding.Has(q)
    case Dropped(_) => true
    case Check(_) => IsReady(s)
    case Send(q, late) => s.apiUp && if late then s.stale.Has(q) else s.passed.Has(q)
    case Shut => true
  }

  function Step(s: Sync, e: Event): Sync {
    match e
    case Connect => Reset(s)
    case MdIsReady => s.(mdReady := true)
    case TdIsReady => OnTdReady(s)
    case Answer(q, row) => Response(s, q, row)
    case Dropped(md) => Disconnect(s, md)
    case Check(q) => Passed(s, q)
    case Send(q, late) => Sent(s, q, late)
    case Shut => Close(s)
  }

  function Start(mdEnabled: bool): Sync {
    Sync(mdEnabled, false, false, false, false, false, false,
         Open(0, 0, 0, 0), [], Open(0, 0, 0, 0), Open(0, 0, 0, 0))
  }

  ghost function Run(s: Sync, events: seq<Event>): Option<Sync>
    decreases |events|
  {
    if events == [] then Some(s)
    else
      var before := Run(s, events[..|events| - 1]);
      var e := events[|events| - 1];
      if before.Some? && Enabled(before.value, e) then Some(Step(before.value, e)) else None
  }

  // ---- The chain ----

  ghost predicate Did(marks: seq<Mark>, i: int, q: Query) {
    0 <= i < |marks| && marks[i] == Completed(q)
  }

  ghost predicate FundDone(marks: seq<Mark>) {
    exists i :: Did(marks, i, Fund)
  }

  ghost predicate PositionDone(marks: seq<Mark>) {
    exists i, j :: i < j && Did(marks, i, Fund) && Did(marks, j, Position)
  }

  ghost predicate OrdersDone(marks: seq<Mark>) {
    exists i, j, k :: i < j < k && Did(marks, i, Fund) && Did(marks, j, Position) && Did(marks, k, Orders)
  }

  lemma MarksGrow(marks: seq<Mark>, m: Mark)
    ensures FundDone(marks) ==> FundDone(marks + [m])
    ensures PositionDone(marks) ==> PositionDone(marks + [m])
    ensures OrdersDone(marks) ==> OrdersDone(marks + [m])
    ensures m == Completed(Fund) ==> FundDone(marks + [m])
    ensures FundDone(marks) && m == Completed(Position) ==> PositionDone(marks + [m])
    ensures PositionDone(marks) && m == Completed(Orders) ==> OrdersDone(marks + [m])
  {
    var after := marks + [m];
    assert forall i, q :: Did(marks, i, q) ==> Did(after, i, q);
    if m.Completed? {
      assert Did(after, |marks|, m.query);
    }
    if FundDone(marks) {
      var i :| Did(marks, i, Fund);
      assert Did(after, i, Fund);
    }
    if PositionDone(marks) {
      var i, j :| i < j && Did(marks, i, Fund) && Did(marks, j, Position);
      assert Did(after, i, Fund) && Did(after, j, Position);
    }
    if OrdersDone(marks) {
      var i, j, k :| i < j < k && Did(marks, i, Fund) && Did(marks, j, Position) && Did(marks, k, Orders);
      assert Did(after, i, Fund) && Did(after, j, Position) && Did(after, k, Orders);
    }
  }

  ghost predicate Chained(s: Sync) {
    && (!s.synced && s.outstanding.Has(Position) ==> FundDone(s.marks))
    && (!s.synced && s.outstanding.Has(Orders) ==> PositionDone(s.marks))
    && (s.synced ==> OrdersDone(s.marks))
  }

  lemma AnswerChained(s: Sync, q: Query, row: Row)
    requires Chained(s) && s.outstanding.Has(q)
    ensures Chained(Response(s, q, row))
  {
    if !row.ok { MarksGrow(s.marks, Failed(q)); }
    else if row.last { MarksGrow(s.marks, Completed(q)); }
  }

  predicate SameFlags(s: Sync, s': Sync) {
    && s'.mdEnabled == s.mdEnabled && s'.mdReady == s.mdReady && s'.tdReady == s.tdReady
    && s'.closing == s.closing && s'.apiUp == s.apiUp
  }

  /** A check that was not overtaken by a reset stands for a completed sync. */
  ghost predicate Granted(s: Sync) {
    s.apiUp && s.passed != Open(0, 0, 0, 0) ==> s.synced
  }

  lemma PassedGrants(s: Sync, q: Query)
    requires Granted(s) && s.apiUp && s.passed.Has(q)
    ensures s.synced
  {
  }

  lemma StepGranted(s: Sync, e: Event)
    requires Granted(s) && Enabled(s, e)
    ensures Granted(Step(s, e))
  {
    if e.Answer? {
      var s' := Step(s, e);
      RowKeeps(s, e.query, e.row);
    }
  }

  lemma RowKeeps(s: Sync, q: Query, row: Row)
    ensures Steady(s, Response(s, q, row))
  {
    var m := Marked(s, q, row);
    assert Steady(s, m);
    ConsumedSteady(m, q, row);
    OnRowSteady(Consumed(m, q, row), q, row);
  }

  /** What an answer leaves as it was; a completed sync stays complete. */
  predicate Steady(s: Sync, s': Sync) {
    && SameFlags(s, s') && s'.passed == s.passed && s'.stale == s.stale && (s.synced ==> s'.synced)
  }

  lemma ConsumedSteady(s: Sync, q: Query, row: Row)
    ensures Steady(s, Consumed(s, q, row))
  {
  }

  lemma OnRowSteady(s: Sync, q: Query, row: Row)
    ensures Steady(s, OnRow(s, q, row))
  {
  }

  lemma {:induction false} RunGranted(mdEnabled: bool, events: seq<Event>, s: Sync)
    requires Run(Start(mdEnabled), events) == Some(s)
    ensures Granted(s)
  {
    if events != [] {
      var n := |events| - 1;
      var before := Run(Start(mdEnabled), events[..n]).value;
      RunGranted(mdEnabled, events[..n], before);
      StepGranted(before, events[n]);
    }
  }

  /** A position or order query whose readiness check a reset has overtaken. */
  predicate SkipsAhead(e: Event) {
    e.Send? && e.late && (e.query.Position? || e.query.Orders?)
  }

  /** None was sent since the last reset. */
  predicate Guarded(events: seq<Event>) {
    events != [] && !events[|events| - 1].Connect? ==>
      !SkipsAhead(events[|events| - 1]) && Guarded(events[..|events| - 1])
  }

  lemma StepChained(s: Sync, e: Event)
    requires Chained(s) && Granted(s) && Enabled(s, e) && !SkipsAhead(e)
    ensures Chained(Step(s, e))
  {
    if e.Answer? {
      AnswerChained(s, e.query, e.row);
    } else if e.Connect? || e.Shut? {
    } else {
      if e.Send? && !e.late { PassedGrants(s, e.query); }
      var s' := Step(s, e);
      assert s'.marks == s.marks && s'.synced == s.synced;
      assert !s.synced ==> (s'.outstanding.Has(Position) ==> s.outstanding.Has(Position))
                           && (s'.outstanding.Has(Orders) ==> s.outstanding.Has(Orders));
    }
  }

  lemma ResetChained(s: Sync)
    ensures Chained(Reset(s))
  {
  }

  lemma {:induction false} RunChained(mdEnabled: bool, events: seq<Event>, s: Sync)
    requires Run(Start(mdEnabled), events) == Some(s) && Guarded(events)
    ensures Chained(s)
  {
    if events != [] {
      var n := |events| - 1;
      var before := Run(Start(mdEnabled), events[..n]).value;
      if events[n].Connect? {
        ResetChained(before);
      } else {
        RunChained(mdEnabled, events[..n], before);
        RunGranted(mdEnabled, events[..n], before);
        StepChained(before, events[n]);
      }
    }
  }

  /**
   * Readiness implies that since the last reset the fund, position and order
   * snapshots each delivered an error-free last row, in that order, unless a
   * position or order query was sent since whose check came before the reset.
   */
  lemma SnapshotBeforeReady(mdEnabled: bool, events: seq<Event>, s: Sync)
    requires Run(Start(mdEnabled), events) == Some(s) && IsReady(s) && Guarded(events)
    ensures exists i, j, k :: 0 <= i < j < k < |s.marks|
              && s.marks[i] == Completed(Fund) && s.marks[j] == Completed(Position) && s.marks[k] == Completed(Orders)
  {
    RunChained(mdEnabled, events, s);
    var i, j, k :| i < j < k && Did(s.marks, i, Fund) && Did(s.marks, j, Position) && Did(s.marks, k, Orders);
    assert s.marks[i] == Completed(Fund) && s.marks[j] == Completed(Position) && s.marks[k] == Completed(Orders);
  }

  // ---- Errors ----

  /** Failed queries below the account link. */
  function Failures(marks: seq<Mark>): nat {
    if marks == [] then 0
    else
      var m := marks[|marks| - 1];
      Failures(marks[..|marks| - 1]) + if m.Failed? && m.query != Account then 1 else 0
  }

  /** An account row with data, or a client query that a reset overtook, starts a chain of queries. */
  predicate StartsChain(e: Event) {
    || (e.Answer? && e.query.Account? && e.row.ok && e.row.hasData)
    || (e.Send? && e.late && !e.query.Account?)
  }

  /** The chains started since the last reset. */
  function Chains(events: seq<Event>): nat {
    if events == [] then 0
    else
      var e := events[|events| - 1];
      if e.Connect? then 0 else Chains(events[..|events| - 1]) + if StartsChain(e) then 1 else 0
  }

  /** Queries of the chains that are unanswered. */
  function Below(o: Open): nat {
    o.fund + o.position + o.orders
  }

  /** Until the sync is complete, each chain has at most one open query or one failure. */
  ghost predicate Budget(s: Sync, chains: nat) {
    && (s.closing ==> s.outstanding == Open(0, 0, 0, 0) && !s.apiUp && !s.synced)
    && (!s.closing && !s.synced ==> Below(s.outstanding) + Failures(s.marks) <= chains)
  }

  lemma FailuresSnoc(marks: seq<Mark>, m: Mark)
    ensures Failures(marks + [m]) == Failures(marks) + if m.Failed? && m.query != Account then 1 else 0
  {
    assert (marks + [m])[..|marks|] == marks;
  }

  lemma AnswerBudget(s: Sync, chains: nat, q: Query, row: Row)
    requires Budget(s, chains) && s.outstanding.Has(q)
    ensures Budget(Response(s, q, row), chains + if q.Account? && row.ok && row.hasData then 1 else 0)
  {
    if !row.ok { FailuresSnoc(s.marks, Failed(q)); }
    else if row.last { FailuresSnoc(s.marks, Completed(q)); }
  }

  lemma OtherBudget(s: Sync, chains: nat, e: Event)
    requires Budget(s, chains) && Granted(s) && Enabled(s, e) && !e.Answer?
    ensures Budget(Step(s, e), if e.Connect? then 0 else chains + if StartsChain(e) then 1 else 0)
  {
    match e {
      case Connect => assert Failures([]) == 0;
      case Send(q, late) => if !late { PassedGrants(s, q); }
      case _ =>
    }
  }

  lemma {:induction false} RunBudget(mdEnabled: bool, events: seq<Event>, s: Sync)
    requires Run(Start(mdEnabled), events) == Some(s)
    ensures Budget(s, Chains(events))
  {
    if events != [] {
      var n := |events| - 1;
      var e, before := events[n], Run(Start(mdEnabled), events[..n]).value;
      RunBudget(mdEnabled, events[..n], before);
      if e.Answer? { AnswerBudget(before, Chains(events[..n]), e.query, e.row); }
      else {
        RunGranted(mdEnabled, events[..n], before);
        OtherBudget(before, Chains(events[..n]), e);
      }
    }
  }

  /** Nothing of a chain is open and the sync is not complete. */
  predicate Stopped(s: Sync) {
    Below(s.outstanding) == 0 && !s.synced
  }

  lemma StoppedStays(s: Sync, e: Event)
    requires Stopped(s) && Granted(s) && Enabled(s, e) && !StartsChain(e)
    ensures Stopped(Step(s, e))
  {
    if e.Send? && !e.late { PassedGrants(s, e.query); }
  }

  lemma {:induction false} StoppedRuns(mdEnabled: bool, events: seq<Event>, s: Sync, more: seq<Event>, s': Sync)
    requires Run(Start(mdEnabled), events) == Some(s) && Stopped(s)
    requires Run(Start(mdEnabled), events + more) == Some(s')
    requires forall i :: 0 <= i < |more| ==> !StartsChain(more[i])
    ensures Stopped(s')
  {
    if more == [] {
      assert events + more == events;
    } else {
      var n := |more| - 1;
      var before := RunLast(mdEnabled, events, more, s');
      StoppedRuns(mdEnabled, events, s, more[..n], before);
      RunGranted(mdEnabled, events + more[..n], before);
      StoppedStays(before, more[n]);
    }
  }

  lemma RunLast(mdEnabled: bool, events: seq<Event>, more: seq<Event>, s': Sync) returns (before: Sync)
    requires more != [] && Run(Start(mdEnabled), events + more) == Some(s')
    ensures var n := |more| - 1;
            Run(Start(mdEnabled), events + more[..n]) == Some(before) && Enabled(before, more[n])
              && s' == Step(before, more[n])
  {
    var n := |more| - 1;
    assert (events + more)[..|events + more| - 1] == events + more[..n];
    before := Run(Start(mdEnabled), events + more[..n]).value;
  }

  /**
   * Errors stop the sync: once every chain started since the last reset has met
   * an error below its account link, nothing further is asked and the sync does
   * not complete, through disconnects and reconnects, until another account row
   * arrives or a client query that a reset overtook is sent.
   */
  lemma ErrorsStopChains(mdEnabled: bool, events: seq<Event>, s: Sync, more: seq<Event>, s': Sync)
    requires Run(Start(mdEnabled), events) == Some(s) && !s.synced && Chains(events) <= Failures(s.marks)
    requires Run(Start(mdEnabled), events + more) == Some(s')
    requires forall i :: 0 <= i < |more| ==> !StartsChain(more[i])
    ensures Stopped(s') && !IsReady(s')
  {
    RunBudget(mdEnabled, events, s);
    StoppedRuns(mdEnabled, events, s, more, s');
  }

  lemma {:induction false} FailureCounts(marks: seq<Mark>, i: nat)
    requires i < |marks| && marks[i].Failed? && marks[i].query != Account
    ensures Failures(marks) >= 1
  {
    if i < |marks| - 1 { FailureCounts(marks[..|marks| - 1], i); }
  }

  /** So with a single chain one error in any link below the account is enough. */
  lemma ErrorStopsChain(mdEnabled: bool, events: seq<Event>, s: Sync, i: nat, more: seq<Event>, s': Sync)
    requires Run(Start(mdEnabled), events) == Some(s) && !s.synced && Chains(events) <= 1
    requires i < |s.marks| && s.marks[i].Failed? && s.marks[i].query != Account
    requires Run(Start(mdEnabled), events + more) == Some(s')
    requires forall i :: 0 <= i < |more| ==> !StartsChain(more[i])
    ensures Stopped(s') && !IsReady(s')
  {
    FailureCounts(s.marks, i);
    ErrorsStopChains(mdEnabled, events, s, more, s');
  }

  /** No query at all is open and the sync is not complete. */
  predicate Silent(s: Sync) {
    Stopped(s) && s.outstanding.account == 0
  }

  lemma SilentStays(s: Sync, e: Event)
    requires Silent(s) && Granted(s) && Enabled(s, e) && !AsksAgain(e)
    ensures Silent(Step(s, e))
  {
    match e
    case Answer(q, _) => NothingOpen(s, q);
    case Send(q, _) => PassedGrants(s, q);
    case Dropped(md) => assert Step(s, e).outstanding == s.outstanding && Step(s, e).synced == s.synced;
    case _ =>
  }

  lemma NothingOpen(s: Sync, q: Query)
    requires Silent(s)
    ensures !s.outstanding.Has(q)
  {
  }

  /** A reconnect, a login, or a client query that a reset overtook. */
  predicate AsksAgain(e: Event) {
    e.Connect? || e.TdIsReady? || (e.Send? && e.late)
  }

  lemma {:induction false} SilentRuns(mdEnabled: bool, events: seq<Event>, s: Sync, more: seq<Event>, s': Sync)
    requires Run(Start(mdEnabled), events) == Some(s) && Silent(s)
    requires Run(Start(mdEnabled), events + more) == Some(s')
    requires forall i :: 0 <= i < |more| ==> !AsksAgain(more[i])
    ensures Silent(s')
  {
    if more == [] {
      assert events + more == events;
    } else {
      var n := |more| - 1;
      var before := RunLast(mdEnabled, events, more, s');
      SilentRuns(mdEnabled, events, s, more[..n], before);
      RunGranted(mdEnabled, events + more[..n], before);
      SilentStays(before, more[n]);
    }
  }

  /**
   * An error of the account query itself stops everything when no account row
   * came before it: nothing at all is outstanding, and the sync stays incomplete
   * until the next login, reconnect or overtaken client query.
   */
  lemma AccountErrorStopsChain(mdEnabled: bool, events: seq<Event>, s: Sync, more: seq<Event>, s': Sync)
    requires Run(Start(mdEnabled), events) == Some(s) && !s.synced && Chains(events) == 0 && s.outstanding.account == 0
    requires Run(Start(mdEnabled), events + more) == Some(s')
    requires forall i :: 0 <= i < |more| ==> !AsksAgain(more[i])
    ensures Silent(s') && !IsReady(s')
  {
    RunBudget(mdEnabled, events, s);
    SilentRuns(mdEnabled, events, s, more, s');
  }

  lemma RunSnoc(s: Sync, events: seq<Event>, s': Sync, e: Event)
    requires Run(s, events) == Some(s') && Enabled(s', e)
    ensures Run(s, events + [e]) == Some(Step(s', e))
  {
    assert (events + [e])[..|events|] == events;
  }

  function WholeRow(): Row {
    Row(true, true, true)
  }

  // ---- Completion ----

  /** A whole error-free answer: what it completes and what is asked next. */
  function AfterWhole(s: Sync, q: Query): Sync {
    var c := s.(marks := s.marks + [Completed(q)], outstanding := s.outstanding.Minus(q));
    match q
    case Account => Ask(c.(accountReady := true), Fund)
    case Fund => if c.apiUp && !c.synced then Ask(c, Position) else c
    case Position => if c.apiUp && !c.synced then Ask(c, Orders) else c
    case Orders => c.(synced := true)
  }

  lemma WholeAnswer(s: Sync, q: Query)
    requires s.outstanding.Has(q)
    ensures Step(s, Answer(q, WholeRow())) == AfterWhole(s, q)
  {
    var m := Marked(s, q, WholeRow());
    assert m == s.(marks := s.marks + [Completed(q)]);
    var c := Consumed(m, q, WholeRow());
    assert c == m.(outstanding := s.outstanding.Minus(q));
    WholeRowNext(c, q);
  }

  /** What follows from a whole answer. */
  predicate Advances(s: Sync, q: Query, s': Sync) {
    && SameFlags(s, s') && s'.marks == s.marks + [Completed(q)]
    && s'.accountReady == (s.accountReady || q.Account?) && s'.synced == (s.synced || q.Orders?)
    && (q.Account? ==>
          && s'.outstanding.Has(Fund)
          && s'.outstanding.position == s.outstanding.position && s'.outstanding.orders == s.outstanding.orders)
    && (q.Fund? && s.apiUp && !s.synced ==> s'.outstanding.Has(Position))
    && (q.Position? && s.apiUp && !s.synced ==> s'.outstanding.Has(Orders))
  }

  lemma AfterWholeAdvances(s: Sync, q: Query)
    ensures Advances(s, q, AfterWhole(s, q))
  {
    var c := s.(marks := s.marks + [Completed(q)], outstanding := s.outstanding.Minus(q));
    match q
    case Account => AskAdds(c.(accountReady := true), Fund);
    case Fund => AskAdds(c, Position);
    case Position => AskAdds(c, Orders);
    case Orders =>
  }

  lemma AskAdds(s: Sync, q: Query)
    ensures Ask(s, q).outstanding.Has(q)
    ensures q.Fund? ==> Ask(s, q).outstanding == s.outstanding.(fund := s.outstanding.fund + 1)
  {
  }

  lemma Whole(s: Sync, q: Query) returns (s': Sync)
    requires s.outstanding.Has(q)
    ensures s' == Step(s, Answer(q, WholeRow())) && Advances(s, q, s')
  {
    WholeAnswer(s, q);
    AfterWholeAdvances(s, q);
    s' := AfterWhole(s, q);
  }

  lemma WholeRowNext(c: Sync, q: Query)
    ensures OnRow(c, q, WholeRow()) ==
            match q
            case Account => Ask(c.(accountReady := true), Fund)
            case Fund => if c.apiUp && !c.synced then Ask(c, Position) else c
            case Position => if c.apiUp && !c.synced then Ask(c, Orders) else c
            case Orders => c.(synced := true)
  {
  }

  lemma RunOne(s: Sync, e: Event)
    requires Enabled(s, e)
    ensures Run(s, [e]) == Some(Step(s, e))
  {
    assert [e][..0] == [] && Run(s, []) == Some(s);
  }

  /** Runs compose. */
  lemma {:induction false} RunAppend(s: Sync, first: seq<Event>, middle: Sync, second: seq<Event>, s': Sync)
    requires Run(s, first) == Some(middle) && Run(middle, second) == Some(s')
    ensures Run(s, first + second) == Some(s')
  {
    if second == [] {
      assert first + second == first;
    } else {
      var n := |second| - 1;
      var before := Run(middle, second[..n]).value;
      RunAppend(s, first, middle, second[..n], before);
      assert (first + second)[..|first + second| - 1] == first + second[..n];
    }
  }

  /** Nothing but answers below the account link. */
  predicate OnlyAnswers(more: seq<Event>) {
    forall i :: 0 <= i < |more| ==> more[i].Answer? && !more[i].query.Account?
  }

  predicate NoConnect(more: seq<Event>) {
    forall i :: 0 <= i < |more| ==> !more[i].Connect?
  }

  lemma FinishOrders(s: Sync) returns (more: seq<Event>, s': Sync)
    requires s.outstanding.Has(Orders)
    ensures Run(s, more) == Some(s') && OnlyAnswers(more) && SameFlags(s, s') && s'.accountReady == s.accountReady
    ensures s'.synced && s'.marks == s.marks + [Completed(Orders)]
  {
    more := [Answer(Orders, WholeRow())];
    s' := Whole(s, Orders);
    RunOne(s, Answer(Orders, WholeRow()));
  }

  lemma FinishPosition(s: Sync) returns (more: seq<Event>, s': Sync)
    requires s.outstanding.Has(Position) && s.apiUp && !s.synced
    ensures Run(s, more) == Some(s') && OnlyAnswers(more) && SameFlags(s, s') && s'.accountReady == s.accountReady
    ensures s'.synced && s'.marks == s.marks + [Completed(Position), Completed(Orders)]
  {
    var next := Whole(s, Position);
    RunOne(s, Answer(Position, WholeRow()));
    var rest;
    rest, s' := FinishOrders(next);
    more := [Answer(Position, WholeRow())] + rest;
    RunAppend(s, [Answer(Position, WholeRow())], next, rest, s');
  }

  lemma FinishFund(s: Sync) returns (more: seq<Event>, s': Sync)
    requires s.outstanding.Has(Fund) && s.apiUp && !s.synced
    ensures Run(s, more) == Some(s') && OnlyAnswers(more) && SameFlags(s, s') && s'.accountReady == s.accountReady
    ensures s'.synced && s'.marks == s.marks + [Completed(Fund), Completed(Position), Completed(Orders)]
  {
    var next := Whole(s, Fund);
    RunOne(s, Answer(Fund, WholeRow()));
    var rest;
    rest, s' := FinishPosition(next);
    more := [Answer(Fund, WholeRow())] + rest;
    RunAppend(s, [Answer(Fund, WholeRow())], next, rest, s');
  }

  /** These events complete the sync without starting another chain. */
  ghost predicate Completes(s: Sync, more: seq<Event>) {
    (forall i :: 0 <= i < |more| ==> !StartsChain(more[i])) && Run(s, more).Some? && Run(s, more).value.synced
  }

  /**
   * An open, unsynced session on a live API can still complete its sync without
   * starting another chain exactly when a query of some chain is unanswered.
   */
  lemma CompletesExactly(mdEnabled: bool, events: seq<Event>, s: Sync)
    requires Run(Start(mdEnabled), events) == Some(s) && s.apiUp && !s.closing && !s.synced
    ensures Below(s.outstanding) > 0 <==> exists more :: Completes(s, more)
  {
    if Below(s.outstanding) > 0 {
      var more := FinishBelow(s);
    } else {
      forall more ensures !Completes(s, more) {
        if Completes(s, more) {
          RunAppend(Start(mdEnabled), events, s, more, Run(s, more).value);
          StoppedRuns(mdEnabled, events, s, more, Run(s, more).value);
        }
      }
    }
  }

  lemma FinishBelow(s: Sync) returns (more: seq<Event>)
    requires Below(s.outstanding) > 0 && s.apiUp && !s.synced
    ensures Completes(s, more)
  {
    var s';
    if s.outstanding.Has(Orders) { more, s' := FinishOrders(s); }
    else if s.outstanding.Has(Position) { more, s' := FinishPosition(s); }
    else { more, s' := FinishFund(s); }
  }

  /** The quote side and a login: the account is asked for. */
  lemma LogsIn(s: Sync) returns (more: seq<Event>, s': Sync)
    requires s.apiUp && !s.closing
    ensures Run(s, more) == Some(s') && NoConnect(more) && s'.mdReady && s'.tdReady && s'.apiUp && !s'.closing
    ensures s'.synced == s.synced && s'.marks == s.marks && s'.outstanding == s.outstanding.Plus(Account)
  {
    var s1 := s.(mdReady := true);
    RunOne(s, MdIsReady);
    RunOne(s1, TdIsReady);
    s' := OnTdReady(s1);
    more := [MdIsReady] + [TdIsReady];
    RunAppend(s, [MdIsReady], s1, [TdIsReady], s');
  }

  /** And an account row: the fund is asked for, and the flags are up. */
  lemma AccountArrives(s: Sync) returns (more: seq<Event>, s': Sync)
    requires s.apiUp && !s.closing
    ensures Run(s, more) == Some(s') && NoConnect(more)
    ensures s'.mdReady && s'.tdReady && s'.accountReady && s'.apiUp && !s'.closing
    ensures s'.synced == s.synced && s'.marks == s.marks + [Completed(Account)] && s'.outstanding.Has(Fund)
    ensures s'.outstanding.position == s.outstanding.position && s'.outstanding.orders == s.outstanding.orders
  {
    var login, up := LogsIn(s);
    s' := Whole(up, Account);
    RunOne(up, Answer(Account, WholeRow()));
    more := login + [Answer(Account, WholeRow())];
    RunAppend(s, login, up, [Answer(Account, WholeRow())], s');
  }

  /** From every open state on a live API, whatever failed before, some continuation on that API is ready. */
  lemma ChainCompletes(s: Sync) returns (more: seq<Event>, s': Sync)
    requires s.apiUp && !s.closing
    ensures Run(s, more) == Some(s') && NoConnect(more) && IsReady(s')
  {
    var first, next := AccountArrives(s);
    if s.synced {
      more, s' := first, next;
    } else {
      var rest;
      rest, s' := FinishFund(next);
      more := first + rest;
      RunAppend(s, first, next, rest, s');
    }
  }

  /**
   * After an account row the order of events matters: an error that closes the
   * account query later does not stop the chain the row started. From every open
   * and unsynced state such an error can lead to a ready session.
   */
  lemma LateAccountError(s: Sync) returns (more: seq<Event>, s': Sync)
    requires s.apiUp && !s.closing && !s.synced
    ensures Run(s, more) == Some(s') && NoConnect(more) && IsReady(s') && Failed(Account) in s'.marks
  {
    var login, up := LogsIn(s);
    var first, failed := RowThenError(up);
    RunAppend(s, login, up, first, failed);
    var rest;
    rest, s' := FinishFund(failed);
    more := login + first + rest;
    RunAppend(s, login + first, failed, rest, s');
    assert s'.marks[|up.marks|] == Failed(Account);
  }

  lemma RowThenError(s: Sync) returns (more: seq<Event>, s': Sync)
    requires s.outstanding.Has(Account)
    ensures Run(s, more) == Some(s') && NoConnect(more) && SameFlags(s, s') && s'.accountReady && s'.synced == s.synced
    ensures s'.outstanding.Has(Fund) && s'.marks == s.marks + [Failed(Account)]
  {
    var row, error := Answer(Account, Row(true, false, true)), Answer(Account, Row(false, false, false));
    var next := FirstRow(s);
    s' := ThenError(next);
    RunOne(s, row);
    RunOne(next, error);
    more := [row] + [error];
    RunAppend(s, [row], next, [error], s');
  }

  lemma FirstRow(s: Sync) returns (s': Sync)
    requires s.outstanding.Has(Account)
    ensures s' == Step(s, Answer(Account, Row(true, false, true)))
    ensures SameFlags(s, s') && s'.accountReady && s'.synced == s.synced && s'.marks == s.marks
    ensures s'.outstanding.Has(Account) && s'.outstanding.Has(Fund)
  {
    s' := Step(s, Answer(Account, Row(true, false, true)));
    assert Marked(s, Account, Row(true, false, true)) == s && Consumed(s, Account, Row(true, false, true)) == s;
  }

  lemma ThenError(s: Sync) returns (s': Sync)
    requires s.outstanding.Has(Account) && s.outstanding.Has(Fund)
    ensures s' == Step(s, Answer(Account, Row(false, false, false)))
    ensures SameFlags(s, s') && s'.accountReady == s.accountReady && s'.synced == s.synced
    ensures s'.marks == s.marks + [Failed(Account)] && s'.outstanding.Has(Fund)
  {
    s' := Step(s, Answer(Account, Row(false, false, false)));
    assert Marked(s, Account, Row(false, false, false)) == s.(marks := s.marks + [Failed(Account)]);
  }

  // ---- Client queries that a reset overtakes ----

  /**
   * The guard in `SnapshotBeforeReady` is needed: from every open state in which
   * a position or order query has passed its check and was not sent yet, a
   * reset, the query and an error-free chain of answers lead to a ready session
   * that has seen no fund snapshot since the reset.
   */
  lemma UnguardedQuerySkipsFund(s: Sync, q: Query) returns (more: seq<Event>, s': Sync)
    requires !s.closing && (q.Position? || q.Orders?) && (s.passed.Has(q) || s.stale.Has(q))
    ensures Run(s, more) == Some(s') && IsReady(s') && Completed(Fund) !in s'.marks
    ensures [Connect, Send(q, true)] <= more && NoConnect(more[2..])
  {
    var first, next := LateLogin(s, q);
    var rest;
    rest, s' := FinishLate(next, q);
    more := first + rest;
    RunAppend(s, first, next, rest, s');
  }

  lemma LateLogin(s: Sync, q: Query) returns (first: seq<Event>, next: Sync)
    requires !s.closing && (q.Position? || q.Orders?) && (s.passed.Has(q) || s.stale.Has(q))
    ensures Run(s, first) == Some(next) && [Connect, Send(q, true)] <= first && NoConnect(first[2..])
    ensures next.outstanding.Has(q) && next.mdReady && next.tdReady && next.accountReady
    ensures next.apiUp && !next.closing && !next.synced && next.marks == [Completed(Account)]
  {
    var asked := LateQuery(s, q);
    var login;
    login, next := AccountArrives(asked);
    first := [Connect, Send(q, true)] + login;
    RunAppend(s, [Connect, Send(q, true)], asked, login, next);
  }

  lemma FinishLate(s: Sync, q: Query) returns (rest: seq<Event>, s': Sync)
    requires s.outstanding.Has(q) && (q.Position? || q.Orders?)
    requires s.mdReady && s.tdReady && s.accountReady && s.apiUp && !s.closing && !s.synced
             && s.marks == [Completed(Account)]
    ensures Run(s, rest) == Some(s') && OnlyAnswers(rest) && IsReady(s') && Completed(Fund) !in s'.marks
  {
    if q.Position? {
      rest, s' := FinishPosition(s);
    } else {
      rest, s' := FinishOrders(s);
    }
  }

  lemma LateQuery(s: Sync, q: Query) returns (s': Sync)
    requires !s.closing && (s.passed.Has(q) || s.stale.Has(q))
    ensures Run(s, [Connect, Send(q, true)]) == Some(s')
    ensures s'.outstanding.Has(q) && s'.marks == [] && s'.apiUp && !s'.synced && !s'.closing
  {
    var s1 := Reset(s);
    assert s1.stale.Has(q);
    s' := Sent(s1, q, true);
    RunOne(s, Connect);
    RunOne(s1, Send(q, true));
    RunAppend(s, [Connect], s1, [Send(q, true)], s');
    assert [Connect] + [Send(q, true)] == [Connect, Send(q, true)];
  }

  // ---- Readiness after a disconnect ----

  /** The answers completed and failed since the last reset among these events. */
  function Delivered(events: seq<Event>): seq<Mark> {
    if events == [] then []
    else
      var e, before := events[|events| - 1], Delivered(events[..|events| - 1]);
      match e
      case Connect => []
      case Answer(q, row) =>
        if !row.ok then before + [Failed(q)] else if row.last then before + [Completed(q)] else before
      case _ => before
  }

  lemma StepMarks(s: Sync, e: Event)
    requires Enabled(s, e)
    ensures Step(s, e).marks ==
            match e
            case Connect => []
            case Answer(q, row) =>
              if !row.ok then s.marks + [Failed(q)] else if row.last then s.marks + [Completed(q)] else s.marks
            case _ => s.marks
  {
    if e.Answer? { RowMarks(s, e.query, e.row); }
  }

  lemma OnRowMarks(s: Sync, q: Query, row: Row)
    ensures OnRow(s, q, row).marks == s.marks
  {
    AskMarks(s.(accountReady := true), Fund);
    AskMarks(s, Position);
    AskMarks(s, Orders);
  }

  lemma AskMarks(s: Sync, q: Query)
    ensures Ask(s, q).marks == s.marks
  {
  }

  lemma ConsumedMarks(s: Sync, q: Query, row: Row)
    ensures Consumed(s, q, row).marks == s.marks
  {
  }

  lemma RowMarks(s: Sync, q: Query, row: Row)
    ensures Response(s, q, row).marks == Marked(s, q, row).marks
  {
    var m := Marked(s, q, row);
    ConsumedMarks(m, q, row);
    OnRowMarks(Consumed(m, q, row), q, row);
  }

  lemma {:induction false} MarksAreDelivered(mdEnabled: bool, events: seq<Event>, s: Sync)
    requires Run(Start(mdEnabled), events) == Some(s)
    ensures s.marks == Delivered(events)
  {
    if events != [] {
      var n := |events| - 1;
      var before := Run(Start(mdEnabled), events[..n]).value;
      MarksAreDelivered(mdEnabled, events[..n], before);
      StepMarks(before, events[n]);
    }
  }

  /** A reset forgets what came before it. */
  lemma {:induction false} DeliveredSince(before: seq<Event>, after: seq<Event>)
    requires Connect in after
    ensures Delivered(before + after) == Delivered(after)
  {
    var n := |after| - 1;
    assert (before + after)[..|before + after| - 1] == before + after[..n];
    assert after == after[..n] + [after[n]];
    if !after[n].Connect? { DeliveredSince(before, after[..n]); }
  }

  lemma {:induction false} GuardedSince(before: seq<Event>, after: seq<Event>)
    requires Connect in after && Guarded(after)
    ensures Guarded(before + after)
  {
    var n := |after| - 1;
    assert (before + after)[..|before + after| - 1] == before + after[..n];
    assert after == after[..n] + [after[n]];
    if !after[n].Connect? { GuardedSince(before, after[..n]); }
  }

  /**
   * After a disconnect that a reconnect follows, readiness is backed: fund,
   * position and order snapshots were delivered since the disconnect, in that
   * order and without error.
   */
  lemma ReadyAfterReconnect(mdEnabled: bool, before: seq<Event>, md: bool, after: seq<Event>, s: Sync)
    requires Run(Start(mdEnabled), before + [Dropped(md)] + after) == Some(s) && IsReady(s)
    requires Connect in after && Guarded(after)
    ensures exists i, j, k :: 0 <= i < j < k < |Delivered(after)|
              && Delivered(after)[i] == Completed(Fund) && Delivered(after)[j] == Completed(Position)
              && Delivered(after)[k] == Completed(Orders)
  {
    GuardedSince(before + [Dropped(md)], after);
    SnapshotBeforeReady(mdEnabled, before + [Dropped(md)] + after, s);
    MarksAreDelivered(mdEnabled, before + [Dropped(md)] + after, s);
    DeliveredSince(before + [Dropped(md)], after);
  }

  /**
   * Without a reconnect it need not be: from every reachable synced state of an
   * open session on a live API, whichever channel drops, the session can become
   * ready again with nothing delivered since but the account.
   */
  lemma ReadyWithoutNewSnapshot(mdEnabled: bool, before: seq<Event>, s: Sync, md: bool)
      returns (after: seq<Event>, s': Sync)
    requires Run(Start(mdEnabled), before) == Some(s) && s.synced && s.apiUp && !s.closing
    ensures Run(Start(mdEnabled), before + [Dropped(md)] + after) == Some(s') && IsReady(s')
    ensures Connect !in after && Delivered(after) == [Completed(Account)]
    ensures !IsReady(Disconnect(s, md)) || (md && !s.mdEnabled)
  {
    var e, s0 := before + [Dropped(md)], Start(mdEnabled);
    RunSnoc(s0, before, s, Dropped(md));
    var s1 := Disconnect(s, md);
    RunSnoc(s0, e, s1, TdIsReady);
    var s2 := OnTdReady(s1);
    RunSnoc(s0, e + [TdIsReady], s2, MdIsReady);
    var s3 := s2.(mdReady := true);
    RunSnoc(s0, e + [TdIsReady] + [MdIsReady], s3, Answer(Account, WholeRow()));
    s' := Response(s3, Account, WholeRow());
    AccountMakesReady(s3);
    after := [TdIsReady, MdIsReady, Answer(Account, WholeRow())];
    assert e + [TdIsReady] + [MdIsReady] + [Answer(Account, WholeRow())] == e + after;
    assert [TdIsReady][..0] == [] && Delivered([TdIsReady]) == [];
    assert [TdIsReady, MdIsReady][..1] == [TdIsReady] && Delivered([TdIsReady, MdIsReady]) == [];
    assert after[..2] == [TdIsReady, MdIsReady];
  }

  lemma AccountMakesReady(s: Sync)
    requires s.synced && !s.closing && s.mdReady && s.tdReady && s.outstanding.Has(Account)
    ensures IsReady(Response(s, Account, WholeRow()))
  {
  }

  // ---- Readiness in terms of what happened ----

  /** What the event does to a flag it raises or takes down. */
  function TurnOf(e: Event, raises: bool, drops: bool): Turn {
    Turn(raises, drops || e.Connect? || e.Shut?)
  }

  predicate Delivers(e: Event, q: Query) {
    e.Answer? && e.query == q && e.row.ok
  }

  function MdTurn(e: Event): Turn {
    TurnOf(e, e.MdIsReady?, e.Dropped? && e.md)
  }

  function TdTurn(e: Event): Turn {
    TurnOf(e, e.TdIsReady?, e.Dropped? && !e.md)
  }

  function AccountTurn(e: Event): Turn {
    TurnOf(e, Delivers(e, Account) && e.row.hasData, e.Dropped? && !e.md)
  }

  function SyncTurn(e: Event): Turn {
    TurnOf(e, Delivers(e, Orders) && e.row.last, false)
  }

  function Turns(events: seq<Event>, turn: Event -> Turn): (r: seq<Turn>)
    ensures |r| == |events|
  {
    seq(|events|, i requires 0 <= i < |events| => turn(events[i]))
  }

  lemma TurnsSnoc(events: seq<Event>, turn: Event -> Turn)
    requires events != []
    ensures var n := |events| - 1; Turns(events, turn) == Turns(events[..n], turn) + [turn(events[n])]
  {
  }

  /** One flag, one step. */
  lemma FlagStep(events: seq<Event>, turn: Event -> Turn, before: bool, after: bool)
    requires events != [] && (before <==> Latched(Turns(events[..|events| - 1], turn)))
    requires var t := turn(events[|events| - 1]); after <==> t.sets || (before && !t.clears)
    ensures after <==> Latched(Turns(events, turn))
  {
    var n := |events| - 1;
    TurnsSnoc(events, turn);
    LatchedSnoc(Turns(events[..n], turn), turn(events[n]));
  }

  lemma MarkedFlags(s: Sync, q: Query, row: Row)
    ensures Marked(s, q, row).accountReady == s.accountReady && Marked(s, q, row).synced == s.synced
  {
  }

  lemma ConsumedFlags(s: Sync, q: Query, row: Row)
    ensures Consumed(s, q, row).accountReady == s.accountReady && Consumed(s, q, row).synced == s.synced
  {
  }

  lemma OnRowFlags(s: Sync, q: Query, row: Row)
    ensures var s' := OnRow(s, q, row);
            && (s'.accountReady <==> s.accountReady || (q.Account? && row.ok && row.hasData))
            && (s'.synced <==> s.synced || (q.Orders? && row.ok && row.last))
  {
  }

  lemma ResponseFlags(s: Sync, q: Query, row: Row)
    ensures var s' := Response(s, q, row);
            && (s'.accountReady <==> s.accountReady || (q.Account? && row.ok && row.hasData))
            && (s'.synced <==> s.synced || (q.Orders? && row.ok && row.last))
  {
    MarkedFlags(s, q, row);
    ConsumedFlags(Marked(s, q, row), q, row);
    OnRowFlags(Consumed(Marked(s, q, row), q, row), q, row);
  }

  lemma MdStep(s: Sync, e: Event)
    requires Enabled(s, e)
    ensures Step(s, e).mdReady <==> MdTurn(e).sets || (s.mdReady && !MdTurn(e).clears)
  {
    if e.Answer? { RowKeeps(s, e.query, e.row); }
  }

  lemma TdStep(s: Sync, e: Event)
    requires Enabled(s, e)
    ensures Step(s, e).tdReady <==> TdTurn(e).sets || (s.tdReady && !TdTurn(e).clears)
  {
    if e.Answer? { RowKeeps(s, e.query, e.row); }
  }

  lemma AccountStep(s: Sync, e: Event)
    requires Enabled(s, e)
    ensures Step(s, e).accountReady <==> AccountTurn(e).sets || (s.accountReady && !AccountTurn(e).clears)
  {
    if e.Answer? { ResponseFlags(s, e.query, e.row); }
  }

  lemma SyncStep(s: Sync, e: Event)
    requires Enabled(s, e)
    ensures Step(s, e).synced <==> SyncTurn(e).sets || (s.synced && !SyncTurn(e).clears)
  {
    if e.Answer? { ResponseFlags(s, e.query, e.row); }
  }

  lemma LifeStep(s: Sync, e: Event)
    requires Enabled(s, e)
    ensures Step(s, e).mdEnabled == s.mdEnabled && (Step(s, e).closing <==> s.closing || e.Shut?)
  {
    if e.Answer? { RowKeeps(s, e.query, e.row); }
  }

  ghost predicate HasShut(events: seq<Event>) {
    exists i :: 0 <= i < |events| && events[i].Shut?
  }

  lemma ShutStep(events: seq<Event>)
    requires events != []
    ensures HasShut(events) <==> HasShut(events[..|events| - 1]) || events[|events| - 1].Shut?
  {
    var n := |events| - 1;
    if HasShut(events[..n]) {
      var i :| 0 <= i < n && events[..n][i].Shut?;
      assert events[i].Shut?;
    }
    if HasShut(events) {
      var i :| 0 <= i < |events| && events[i].Shut?;
      if i < n { assert events[..n][i].Shut?; }
    }
  }

  lemma {:induction false} MdRun(mdEnabled: bool, events: seq<Event>, s: Sync)
    requires Run(Start(mdEnabled), events) == Some(s)
    ensures s.mdReady <==> Latched(Turns(events, MdTurn))
  {
    if events != [] {
      var before := Run(Start(mdEnabled), events[..|events| - 1]).value;
      MdRun(mdEnabled, events[..|events| - 1], before);
      MdStep(before, events[|events| - 1]);
      FlagStep(events, MdTurn, before.mdReady, s.mdReady);
    }
  }

  lemma {:induction false} TdRun(mdEnabled: bool, events: seq<Event>, s: Sync)
    requires Run(Start(mdEnabled), events) == Some(s)
    ensures s.tdReady <==> Latched(Turns(events, TdTurn))
  {
    if events != [] {
      var before := Run(Start(mdEnabled), events[..|events| - 1]).value;
      TdRun(mdEnabled, events[..|events| - 1], before);
      TdStep(before, events[|events| - 1]);
      FlagStep(events, TdTurn, before.tdReady, s.tdReady);
    }
  }

  lemma {:induction false} AccountRun(mdEnabled: bool, events: seq<Event>, s: Sync)
    requires Run(Start(mdEnabled), events) == Some(s)
    ensures s.accountReady <==> Latched(Turns(events, AccountTurn))
  {
    if events != [] {
      var before := Run(Start(mdEnabled), events[..|events| - 1]).value;
      AccountRun(mdEnabled, events[..|events| - 1], before);
      AccountStep(before, events[|events| - 1]);
      FlagStep(events, AccountTurn, before.accountReady, s.accountReady);
    }
  }

  lemma {:induction false} SyncRun(mdEnabled: bool, events: seq<Event>, s: Sync)
    requires Run(Start(mdEnabled), events) == Some(s)
    ensures s.synced <==> Latched(Turns(events, SyncTurn))
  {
    if events != [] {
      var before := Run(Start(mdEnabled), events[..|events| - 1]).value;
      SyncRun(mdEnabled, events[..|events| - 1], before);
      SyncStep(before, events[|events| - 1]);
      FlagStep(events, SyncTurn, before.synced, s.synced);
    }
  }

  lemma {:induction false} LifeRun(mdEnabled: bool, events: seq<Event>, s: Sync)
    requires Run(Start(mdEnabled), events) == Some(s)
    ensures s.mdEnabled == mdEnabled && (s.closing <==> HasShut(events))
  {
    if events != [] {
      var before := Run(Start(mdEnabled), events[..|events| - 1]).value;
      LifeRun(mdEnabled, events[..|events| - 1], before);
      LifeStep(before, events[|events| - 1]);
      ShutStep(events);
    }
  }

  /**
   * The session is ready exactly when it was never closed and each signal it
   * needs came after the latest event that takes the signal back: the market data
   * API (if enabled) and the trade API reported ready, an account row and the
   * last order row arrived without error. A reconnect takes back all four, a
   * disconnect those of its channel but never the order snapshot.
   */
  lemma ReadyExactly(mdEnabled: bool, events: seq<Event>, s: Sync)
    requires Run(Start(mdEnabled), events) == Some(s)
    ensures IsReady(s) <==>
              && !HasShut(events)
              && (mdEnabled ==> Latched(Turns(events, MdTurn)))
              && Latched(Turns(events, TdTurn))
              && Latched(Turns(events, AccountTurn))
              && Latched(Turns(events, SyncTurn))
  {
    LifeRun(mdEnabled, events, s);
    MdRun(mdEnabled, events, s);
    TdRun(mdEnabled, events, s);
    AccountRun(mdEnabled, events, s);
    SyncRun(mdEnabled, events, s);
  }

  // ---- Client queries are sent once ----

  function Held(o: Open, q: Query): nat {
    match q
    case Account => o.account
    case Fund => o.fund
    case Position => o.position
    case Orders => o.orders
  }

  /** How often the client's query passed its check in a run, and how often it was sent. */
  function Checks(events: seq<Event>, q: Query): nat {
    if events == [] then 0
    else Checks(events[..|events| - 1], q) + if events[|events| - 1] == Check(q) then 1 else 0
  }

  function Sends(events: seq<Event>, q: Query): nat {
    if events == [] then 0
    else
      var e := events[|events| - 1];
      Sends(events[..|events| - 1], q) + if e.Send? && e.query == q then 1 else 0
  }

  lemma StepHolds(s: Sync, e: Event, q: Query)
    requires Enabled(s, e) && !e.Answer?
    ensures var s' := Step(s, e);
            Held(s'.passed, q) + Held(s'.stale, q) ==
              Held(s.passed, q) + Held(s.stale, q) + (if e == Check(q) then 1 else 0)
              - (if e.Send? && e.query == q then 1 else 0)
  {
    match e
    case Check(p) =>
      PlusHolds(s.passed, p, q);
      assert Passed(s, p).passed == s.passed.Plus(p) && Passed(s, p).stale == s.stale;
    case Send(p, late) =>
      SentHolds(s, p, late);
      MinusHolds(if late then s.stale else s.passed, p, q);
    case Connect =>
      AndHolds(s.stale, s.passed, q);
      assert Reset(s).stale == s.stale.And(s.passed) && Reset(s).passed == Open(0, 0, 0, 0);
    case _ => OtherHolds(s, e);
  }

  lemma PlusHolds(o: Open, p: Query, q: Query)
    ensures Held(o.Plus(p), q) == Held(o, q) + if p == q then 1 else 0
  {
  }

  lemma MinusHolds(o: Open, p: Query, q: Query)
    requires o.Has(p)
    ensures Held(o.Minus(p), q) == Held(o, q) - if p == q then 1 else 0
  {
  }

  lemma AndHolds(o: Open, p: Open, q: Query)
    ensures Held(o.And(p), q) == Held(o, q) + Held(p, q)
  {
  }

  lemma SentHolds(s: Sync, p: Query, late: bool)
    ensures Sent(s, p, late).passed == (if late then s.passed else s.passed.Minus(p))
    ensures Sent(s, p, late).stale == if late then s.stale.Minus(p) else s.stale
  {
  }

  lemma OtherHolds(s: Sync, e: Event)
    requires e.MdIsReady? || e.TdIsReady? || e.Dropped? || e.Shut?
    ensures Step(s, e).passed == s.passed && Step(s, e).stale == s.stale
  {
  }

  /**
   * In every run a query that passed its check is sent once or still to be sent:
   * none is sent unchecked or twice, and no reset or disconnect loses one.
   */
  lemma {:induction false} QueriesBalance(mdEnabled: bool, events: seq<Event>, s: Sync, q: Query)
    requires Run(Start(mdEnabled), events) == Some(s)
    ensures Checks(events, q) == Sends(events, q) + Held(s.passed, q) + Held(s.stale, q)
  {
    if events != [] {
      var n := |events| - 1;
      var before := Run(Start(mdEnabled), events[..n]).value;
      QueriesBalance(mdEnabled, events[..n], before, q);
      if events[n].Answer? {
        RowKeeps(before, events[n].query, events[n].row);
      } else {
        StepHolds(before, events[n], q);
      }
    }
  }
}
