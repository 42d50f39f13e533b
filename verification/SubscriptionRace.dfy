/**
 * Subscription commands against the market-data callbacks, line by line: a
 * command adds its symbols and then tests the ready flag, the ready callback
 * sets the flag and then takes a snapshot of the active symbols. Connections
 * may drop and be rebuilt at any time.
 */
module SubscriptionRace {
  import opened Prelude

  datatype Command =
    | Adding(rest: seq<string>, all: seq<string>)
    | Testing(all: seq<string>)
    | Quoting(rest: seq<string>)
    | Discarding(rest: seq<string>, all: seq<string>)
    | TestingOut(all: seq<string>)
    | Unquoting(rest: seq<string>)

  datatype Callback = Raising | Snapshotting | Requoting(rest: set<string>)

  /**
   * `quoted`: symbols subscribed natively since the current login, empty while
   * `loggedIn` is false; `dropped`: the link went down and the disconnect
   * callback has not run yet; `callback`: the ready callback in progress.
   */
  datatype State = State(
    active: set<string>, ready: bool, loggedIn: bool, dropped: bool, quoted: set<string>,
    commands: map<nat, Command>, callback: Option<Callback>)

  datatype Event =
    | BeginSubscribe(id: nat, symbols: seq<string>)
    | BeginUnsubscribe(id: nat, symbols: seq<string>)
    | Advance(id: nat)
    | Raise(id: nat)
    | Login
    | AdvanceCallback(symbol: string)
    | RaiseCallback
    | LinkDown
    | Disconnected
    | Rebuild

  predicate Removes(c: Command) {
    c.Discarding? || c.TestingOut? || c.Unquoting?
  }

  /** The command is at a native call. */
  predicate Calls(c: Command) {
    (c.Quoting? || c.Unquoting?) && c.rest != []
  }

  /**
   * Callbacks of one connection run one at a time, and closing a connection
   * waits for its callback; an unsubscribe runs alone among the commands. Any
   * native call may raise, which ends the command or the callback.
   */
  ghost predicate Enabled(st: State, e: Event) {
    match e
    case BeginSubscribe(id, _) => id !in st.commands && forall i :: i in st.commands ==> !Removes(st.commands[i])
    case BeginUnsubscribe(id, _) => st.commands == map[]
    case Advance(id) => id in st.commands
    case Raise(id) => id in st.commands && Calls(st.commands[id])
    case Login => !st.loggedIn && !st.dropped && st.callback.None?
    case AdvanceCallback(s) =>
      && st.callback.Some?
      && (st.callback.value.Requoting? && st.callback.value.rest != {} ==> s in st.callback.value.rest)
    case RaiseCallback => st.callback.Some? && st.callback.value.Requoting? && st.callback.value.rest != {}
    case LinkDown => st.loggedIn
    case Disconnected => st.dropped && st.callback.None?
    case Rebuild => st.callback.None?
  }

  function Put(st: State, id: nat, c: Option<Command>): State {
    st.(commands := if c.Some? then st.commands[id := c.value] else st.commands - {id})
  }

  /** One line of a command. A native call reaches the exchange only while logged in. */
  function CommandStep(st: State, id: nat): State
    requires id in st.commands
  {
    match st.commands[id]
    case Adding(rest, all) =>
      if rest == [] then Put(st, id, Some(Testing(all)))
      else Put(st.(active := st.active + {rest[0]}), id, Some(Adding(rest[1..], all)))
    case Testing(all) => Put(st, id, if st.ready then Some(Quoting(all)) else None)
    case Quoting(rest) =>
      if rest == [] then Put(st, id, None)
      else Put(st.(quoted := if st.loggedIn then st.quoted + {rest[0]} else st.quoted), id, Some(Quoting(rest[1..])))
    case Discarding(rest, all) =>
      if rest == [] then Put(st, id, Some(TestingOut(all)))
      else Put(st.(active := st.active - {rest[0]}), id, Some(Discarding(rest[1..], all)))
    case TestingOut(all) => Put(st, id, if st.ready then Some(Unquoting(all)) else None)
    case Unquoting(rest) =>
      if rest == [] then Put(st, id, None)
      else Put(st.(quoted := st.quoted - {rest[0]}), id, Some(Unquoting(rest[1..])))
  }

  function CallbackStep(st: State, s: string): State
    requires st.callback.Some?
  {
    match st.callback.value
    case Raising => st.(ready := true, callback := Some(Snapshotting))
    case Snapshotting => st.(callback := Some(Requoting(st.active)))
    case Requoting(rest) =>
      if rest == {} then st.(callback := None)
      else st.(quoted := if st.loggedIn then st.quoted + {s} else st.quoted, callback := Some(Requoting(rest - {s})))
  }

  function Step(st: State, e: Event): State
    requires Enabled(st, e)
  {
    match e
    case BeginSubscribe(id, symbols) => Put(st, id, Some(Adding(symbols, symbols)))
    case BeginUnsubscribe(id, symbols) => Put(st, id, Some(Discarding(symbols, symbols)))
    case Advance(id) => CommandStep(st, id)
    case Raise(id) => Put(st, id, None)
    case Login => st.(loggedIn := true, quoted := {}, callback := Some(Raising))
    case AdvanceCallback(s) => CallbackStep(st, s)
    case RaiseCallback => st.(callback := None)
    case LinkDown => st.(loggedIn := false, dropped := true, quoted := {})
    case Disconnected => st.(ready := false, dropped := false)
    case Rebuild => st.(ready := false, loggedIn := false, dropped := false, quoted := {})
  }

  function Start(initial: set<string>): State {
    State(initial, false, false, false, {}, map[], None)
  }

  ghost function Run(st: State, events: seq<Event>): Option<State>
    decreases |events|
  {
    if events == [] then Some(st)
    else
      var before := Run(st, events[..|events| - 1]);
      var e := events[|events| - 1];
      if before.Some? && Enabled(before.value, e) then Some(Step(before.value, e)) else None
  }

  // ---- Invariant ----

  /** The command will still subscribe `s` natively, or test the flag first. */
  predicate WillQuote(c: Command, s: string) {
    match c
    case Adding(_, all) => s in all
    case Testing(all) => s in all
    case Quoting(rest) => s in rest
    case _ => false
  }

  predicate CallbackWillQuote(c: Option<Callback>, s: string) {
    c.Some? && (c.value.Requoting? ==> s in c.value.rest)
  }

  ghost predicate Pending(commands: map<nat, Command>, s: string) {
    exists i :: i in commands && WillQuote(commands[i], s)
  }

  ghost predicate Covered(st: State, s: string) {
    s in st.quoted || CallbackWillQuote(st.callback, s) || Pending(st.commands, s)
  }

  /** Symbols being removed have left the active set before the native call. */
  ghost predicate CommandOk(st: State, c: Command) {
    match c
    case Adding(rest, all) => forall x :: x in rest ==> x in all
    case Discarding(rest, all) =>
      (forall x :: x in rest ==> x in all) && forall x :: x in all && x in st.active ==> x in rest
    case TestingOut(all) => forall x :: x in all ==> x !in st.active
    case Unquoting(rest) => forall x :: x in rest ==> x !in st.active
    case _ => true
  }

  ghost predicate Alone(commands: map<nat, Command>) {
    forall i, j :: i in commands && j in commands && Removes(commands[i]) ==> i == j
  }

  ghost predicate Inv(st: State) {
    && (st.ready ==> st.loggedIn || st.dropped)
    && !(st.loggedIn && st.dropped)
    && (st.loggedIn ==> st.ready || st.callback == Some(Raising))
    && Alone(st.commands)
    && (forall i :: i in st.commands ==> CommandOk(st, st.commands[i]))
    && (st.callback.Some? ==> st.loggedIn || st.dropped)
  }

  lemma CommandsOk(st: State, id: nat, i: nat)
    requires Alone(st.commands) && id in st.commands && i in CommandStep(st, id).commands
             && CommandOk(st, st.commands[id])
    requires i != id ==> i in st.commands && CommandOk(st, st.commands[i])
    ensures CommandOk(CommandStep(st, id), CommandStep(st, id).commands[i])
  {
    if i != id {
      assert Removes(st.commands[i]) ==> i == id;
      assert Removes(st.commands[id]) ==> i == id;
    }
  }

  lemma CommandInv(st: State, id: nat)
    requires Inv(st) && id in st.commands
    ensures Inv(CommandStep(st, id))
  {
    var st' := CommandStep(st, id);
    forall i | i in st'.commands ensures CommandOk(st', st'.commands[i]) {
      CommandsOk(st, id, i);
    }
    AloneStays(st, id);
  }

  lemma AloneStays(st: State, id: nat)
    requires Alone(st.commands) && id in st.commands
    ensures Alone(CommandStep(st, id).commands)
  {
    var commands := CommandStep(st, id).commands;
    assert id in commands && Removes(commands[id]) ==> Removes(st.commands[id]);
  }

  lemma StepInv(st: State, e: Event)
    requires Inv(st) && Enabled(st, e)
    ensures Inv(Step(st, e))
  {
    match e
    case Advance(id) => CommandInv(st, id);
    case BeginSubscribe(id, symbols) => BegunOk(st, id, Adding(symbols, symbols));
    case BeginUnsubscribe(id, symbols) => BegunOk(st, id, Discarding(symbols, symbols));
    case _ => SameCommandsOk(st, Step(st, e));
  }

  lemma BegunOk(st: State, id: nat, c: Command)
    requires Inv(st) && id !in st.commands && (c.Adding? || c.Discarding?) && c.rest == c.all
    requires if Removes(c) then st.commands == map[] else forall i :: i in st.commands ==> !Removes(st.commands[i])
    ensures Inv(Put(st, id, Some(c)))
  {
    var st' := Put(st, id, Some(c));
    forall i | i in st'.commands ensures CommandOk(st', st'.commands[i]) {
      assert i in st.commands ==> CommandOk(st, st.commands[i]);
    }
  }

  lemma SameCommandsOk(st: State, st': State)
    requires Alone(st.commands) && forall i :: i in st.commands ==> CommandOk(st, st.commands[i])
    requires st'.active == st.active
    requires forall i :: i in st'.commands ==> i in st.commands && st'.commands[i] == st.commands[i]
    ensures Alone(st'.commands) && forall i :: i in st'.commands ==> CommandOk(st', st'.commands[i])
  {
    forall i | i in st'.commands ensures CommandOk(st', st'.commands[i]) {
      assert CommandOk(st, st.commands[i]);
    }
  }

  lemma {:induction false} RunInv(initial: set<string>, events: seq<Event>, st: State)
    requires Run(Start(initial), events) == Some(st)
    ensures Inv(st)
  {
    if events != [] {
      var n := |events| - 1;
      var before := Run(Start(initial), events[..n]).value;
      RunInv(initial, events[..n], before);
      StepInv(before, events[n]);
    }
  }

  // ---- Subscriptions lost ----

  /** Active on a live login, not subscribed, and nobody is about to subscribe it. */
  ghost predicate Lost(st: State, s: string) {
    st.loggedIn && s in st.active && !Covered(st, s)
  }

  /** The event loses `s`: the one call that was still to subscribe it never comes, because one before it raised. */
  ghost predicate Loses(st: State, e: Event, s: string) {
    && st.loggedIn && s in st.active && s !in st.quoted
    && match e
       case Raise(id) =>
         && id in st.commands && WillQuote(st.commands[id], s)
         && !CallbackWillQuote(st.callback, s) && !Pending(st.commands - {id}, s)
       case RaiseCallback => CallbackWillQuote(st.callback, s) && !Pending(st.commands, s)
       case _ => false
  }

  /** The event ends that: a new subscribe names the symbol, an unsubscribe gives it up, or the connection is gone. */
  ghost predicate Regains(st: State, e: Event, s: string) {
    match e
    case BeginSubscribe(_, symbols) => s in symbols
    case Advance(id) =>
      id in st.commands && st.commands[id].Discarding? && st.commands[id].rest != [] && st.commands[id].rest[0] == s
    case LinkDown => true
    case Rebuild => true
    case _ => false
  }

  ghost predicate Replaces(commands: map<nat, Command>, id: nat, commands': map<nat, Command>) {
    if id in commands' then commands' == commands[id := commands'[id]] else commands' == commands - {id}
  }

  lemma CommandReplaces(st: State, id: nat)
    requires id in st.commands
    ensures Replaces(st.commands, id, CommandStep(st, id).commands)
  {
  }

  /** The command's own part in whether `s` is about to be subscribed. */
  lemma PendingSplit(commands: map<nat, Command>, id: nat, s: string)
    requires id in commands
    ensures Pending(commands, s) <==> WillQuote(commands[id], s) || Pending(commands - {id}, s)
  {
    if i :| i in commands && WillQuote(commands[i], s) {
      if i != id { assert i in commands - {id} && WillQuote((commands - {id})[i], s); }
    }
    if i :| i in commands - {id} && WillQuote((commands - {id})[i], s) {
      assert WillQuote(commands[i], s);
    }
  }

  lemma PendingPut(commands: map<nat, Command>, id: nat, c: Command, s: string)
    ensures Pending(commands[id := c], s) <==> WillQuote(c, s) || Pending(commands - {id}, s)
  {
    PendingSplit(commands[id := c], id, s);
    assert commands[id := c] - {id} == commands - {id};
  }

  lemma CommandPending(st: State, id: nat, s: string)
    requires id in st.commands
    ensures var commands' := CommandStep(st, id).commands;
            Pending(commands', s) <==>
              (id in commands' && WillQuote(commands'[id], s)) || Pending(st.commands - {id}, s)
  {
    CommandReplaces(st, id);
    var commands' := CommandStep(st, id).commands;
    if id in commands' { PendingPut(st.commands, id, commands'[id], s); }
  }

  lemma AdvanceLost(st: State, id: nat, s: string)
    requires Inv(st) && id in st.commands
    ensures Lost(CommandStep(st, id), s) <==> Lost(st, s) && !Regains(st, Advance(id), s)
  {
    assert CommandOk(st, st.commands[id]);
    PendingSplit(st.commands, id, s);
    CommandPending(st, id, s);
  }

  lemma StepLost(st: State, e: Event, s: string)
    requires Inv(st) && Enabled(st, e)
    ensures Lost(Step(st, e), s) <==> Loses(st, e, s) || (Lost(st, s) && !Regains(st, e, s))
  {
    match e
    case Advance(id) => AdvanceLost(st, id, s);
    case Raise(id) => PendingSplit(st.commands, id, s);
    case BeginSubscribe(id, symbols) => PendingBegun(st.commands, id, Adding(symbols, symbols), s);
    case BeginUnsubscribe(id, symbols) => PendingBegun(st.commands, id, Discarding(symbols, symbols), s);
    case _ =>
  }

  lemma PendingBegun(commands: map<nat, Command>, id: nat, c: Command, s: string)
    requires id !in commands
    ensures Pending(commands[id := c], s) <==> WillQuote(c, s) || Pending(commands, s)
  {
    PendingPut(commands, id, c, s);
    assert commands - {id} == commands;
  }

  /** What each event of a run did to whether `s` is lost. */
  ghost function LossTurns(initial: set<string>, events: seq<Event>, s: string): seq<Turn> {
    if events == [] then []
    else
      var n := |events| - 1;
      var before := Run(Start(initial), events[..n]);
      LossTurns(initial, events[..n], s) +
      [if before.None? then Turn(false, false)
       else Turn(Loses(before.value, events[n], s), Regains(before.value, events[n], s))]
  }

  lemma {:induction false} RunLost(initial: set<string>, events: seq<Event>, st: State, s: string)
    requires Run(Start(initial), events) == Some(st)
    ensures Lost(st, s) <==> Latched(LossTurns(initial, events, s))
  {
    if events != [] {
      var n := |events| - 1;
      var before := Run(Start(initial), events[..n]).value;
      RunLost(initial, events[..n], before, s);
      RunInv(initial, events[..n], before);
      StepLost(before, events[n], s);
      LatchedSnoc(LossTurns(initial, events[..n], s), Turn(Loses(before, events[n], s), Regains(before, events[n], s)));
    }
  }

  /**
   * Whenever no command and no callback is in progress and the ready flag is set
   * on a live link, the session is logged in, and the active symbols that have
   * not been subscribed since that login are exactly those an exception cut off
   * with nobody else to subscribe them, and that were not subscribed again.
   */
  lemma LostExactly(initial: set<string>, events: seq<Event>, st: State)
    requires Run(Start(initial), events) == Some(st)
    requires st.commands == map[] && st.callback.None? && st.ready && !st.dropped
    ensures st.loggedIn
    ensures forall s :: s in st.active && s !in st.quoted <==> Latched(LossTurns(initial, events, s))
  {
    RunInv(initial, events, st);
    forall s ensures s in st.active && s !in st.quoted <==> Latched(LossTurns(initial, events, s)) {
      RunLost(initial, events, st, s);
    }
  }

  /** A call to subscribe raises on a live login. */
  ghost predicate CutsOff(st: State, e: Event) {
    st.loggedIn && (e.RaiseCallback? || (e.Raise? && e.id in st.commands && st.commands[e.id].Quoting?))
  }

  ghost predicate NoneCutOff(initial: set<string>, events: seq<Event>) {
    forall i :: 0 <= i < |events| ==>
      var before := Run(Start(initial), events[..i]);
      before.Some? ==> !CutsOff(before.value, events[i])
  }

  lemma NoneCutOffBefore(initial: set<string>, events: seq<Event>)
    requires NoneCutOff(initial, events) && events != []
    ensures NoneCutOff(initial, events[..|events| - 1])
  {
    var n := |events| - 1;
    forall i | 0 <= i < n
      ensures var before := Run(Start(initial), events[..n][..i]);
              before.Some? ==> !CutsOff(before.value, events[..n][i])
    {
      assert events[..n][..i] == events[..i] && events[..n][i] == events[i];
    }
  }

  lemma {:induction false} NoneLost(initial: set<string>, events: seq<Event>, st: State, s: string)
    requires Run(Start(initial), events) == Some(st) && NoneCutOff(initial, events)
    ensures !Lost(st, s)
  {
    if events != [] {
      var n := |events| - 1;
      var before := Run(Start(initial), events[..n]).value;
      NoneCutOffBefore(initial, events);
      NoneLost(initial, events[..n], before, s);
      RunInv(initial, events[..n], before);
      assert !CutsOff(before, events[n]);
      StepLost(before, events[n], s);
    }
  }

  /** So no subscription is lost as long as no call to subscribe raises. */
  lemma NoSubscriptionLost(initial: set<string>, events: seq<Event>, st: State)
    requires Run(Start(initial), events) == Some(st) && NoneCutOff(initial, events)
    requires st.commands == map[] && st.callback.None? && st.ready && !st.dropped
    ensures st.loggedIn && st.active <= st.quoted
  {
    RunInv(initial, events, st);
    forall s | s in st.active ensures s in st.quoted {
      NoneLost(initial, events, st, s);
    }
  }

  /** In the middle of a run a missing symbol was lost in that way, or somebody is about to subscribe it. */
  lemma MissingIsPending(initial: set<string>, events: seq<Event>, st: State, s: string)
    requires Run(Start(initial), events) == Some(st) && st.loggedIn && s in st.active && s !in st.quoted
    ensures Latched(LossTurns(initial, events, s)) <==>
              !CallbackWillQuote(st.callback, s) && !exists i :: i in st.commands && WillQuote(st.commands[i], s)
  {
    RunLost(initial, events, st, s);
  }

  // ---- Subscriptions left behind ----

  /** A running unsubscribe will still reach the native call for `s`, or the flag test before it. */
  predicate WillUnquote(c: Command, s: string) {
    match c
    case Discarding(_, all) => s in all
    case TestingOut(all) => s in all
    case Unquoting(rest) => s in rest
    case _ => false
  }

  ghost predicate Leaving(commands: map<nat, Command>, s: string) {
    exists i :: i in commands && WillUnquote(commands[i], s)
  }

  /** Subscribed natively although nobody wants it, and nobody is about to withdraw it. */
  ghost predicate LeftOver(st: State, s: string) {
    s in st.quoted && s !in st.active && !Leaving(st.commands, s)
  }

  /**
   * The event leaves `s` behind: the ready callback subscribes it from a snapshot
   * older than its removal, an unsubscribe finds the flag down while the symbol
   * is already subscribed on this login, or a call to withdraw it or one before
   * it raises.
   */
  ghost predicate Leaves(st: State, e: Event, s: string) {
    match e
    case AdvanceCallback(x) =>
      && x == s && st.callback.Some? && st.callback.value.Requoting? && st.callback.value.rest != {}
      && st.loggedIn && s !in st.active && !Leaving(st.commands, s)
    case Advance(id) =>
      id in st.commands && st.commands[id].TestingOut? && s in st.commands[id].all && !st.ready && s in st.quoted
    case Raise(id) => id in st.commands && st.commands[id].Unquoting? && s in st.commands[id].rest && s in st.quoted
    case _ => false
  }

  /** The event ends that: the symbol is wanted again, about to be withdrawn, or the connection is gone. */
  ghost predicate Clears(st: State, e: Event, s: string) {
    match e
    case Advance(id) =>
      id in st.commands && st.commands[id].Adding? && st.commands[id].rest != [] && st.commands[id].rest[0] == s
    case BeginUnsubscribe(_, symbols) => s in symbols
    case Login => true
    case LinkDown => true
    case Rebuild => true
    case _ => false
  }

  /** What a subscribe has added and not yet subscribed is active; nothing is subscribed while logged out. */
  ghost predicate Wanted(st: State, c: Command) {
    match c
    case Adding(rest, all) => forall x :: x in all ==> x in rest || x in st.active
    case Testing(all) => forall x :: x in all ==> x in st.active
    case Quoting(rest) => forall x :: x in rest ==> x in st.active
    case _ => true
  }

  ghost predicate AllWanted(st: State) {
    && (forall i :: i in st.commands ==> Wanted(st, st.commands[i]))
    && (!st.loggedIn ==> st.quoted == {})
  }

  lemma OwnWanted(st: State, id: nat)
    requires id in st.commands && id in CommandStep(st, id).commands && Wanted(st, st.commands[id])
    ensures Wanted(CommandStep(st, id), CommandStep(st, id).commands[id])
  {
  }

  /** A command that does not remove symbols takes none away. */
  lemma OtherWanted(st: State, id: nat, c: Command)
    requires id in st.commands && !Removes(st.commands[id]) && Wanted(st, c)
    ensures Wanted(CommandStep(st, id), c)
  {
  }

  lemma WantedStep(st: State, id: nat, i: nat)
    requires Alone(st.commands) && id in st.commands && i in CommandStep(st, id).commands && Wanted(st, st.commands[id])
    requires i != id ==> i in st.commands && Wanted(st, st.commands[i])
    ensures Wanted(CommandStep(st, id), CommandStep(st, id).commands[i])
  {
    if i == id {
      OwnWanted(st, id);
    } else {
      assert Removes(st.commands[id]) ==> i == id;
      OtherWanted(st, id, st.commands[i]);
      CommandReplaces(st, id);
    }
  }

  lemma AdvanceWanted(st: State, id: nat)
    requires Inv(st) && AllWanted(st) && id in st.commands
    ensures AllWanted(CommandStep(st, id))
  {
    var st' := CommandStep(st, id);
    forall i | i in st'.commands ensures Wanted(st', st'.commands[i]) { WantedStep(st, id, i); }
  }

  lemma StepWanted(st: State, e: Event)
    requires Inv(st) && AllWanted(st) && Enabled(st, e)
    ensures AllWanted(Step(st, e))
  {
    var st' := Step(st, e);
    if e.Advance? {
      AdvanceWanted(st, e.id);
    } else {
      forall i | i in st'.commands ensures Wanted(st', st'.commands[i]) {
        assert i in st.commands ==> Wanted(st, st.commands[i]);
      }
    }
  }

  /** The command's own part in whether `s` is about to be withdrawn. */
  lemma LeavingSplit(commands: map<nat, Command>, id: nat, s: string)
    requires id in commands
    ensures Leaving(commands, s) <==> WillUnquote(commands[id], s) || Leaving(commands - {id}, s)
  {
    if i :| i in commands && WillUnquote(commands[i], s) {
      if i != id { assert i in commands - {id} && WillUnquote((commands - {id})[i], s); }
    }
    if i :| i in commands - {id} && WillUnquote((commands - {id})[i], s) {
      assert WillUnquote(commands[i], s);
    }
  }

  lemma LeavingPut(commands: map<nat, Command>, id: nat, c: Command, s: string)
    ensures Leaving(commands[id := c], s) <==> WillUnquote(c, s) || Leaving(commands - {id}, s)
  {
    LeavingSplit(commands[id := c], id, s);
    assert commands[id := c] - {id} == commands - {id};
  }

  lemma ReplacedLeaving(commands: map<nat, Command>, id: nat, commands': map<nat, Command>, s: string)
    requires Replaces(commands, id, commands')
    ensures Leaving(commands', s) <==> (id in commands' && WillUnquote(commands'[id], s)) || Leaving(commands - {id}, s)
  {
    if id in commands' { LeavingPut(commands, id, commands'[id], s); }
  }

  lemma CommandLeaving(st: State, id: nat, s: string)
    requires id in st.commands
    ensures var commands' := CommandStep(st, id).commands;
            Leaving(commands', s) <==>
              (id in commands' && WillUnquote(commands'[id], s)) || Leaving(st.commands - {id}, s)
  {
    CommandReplaces(st, id);
    ReplacedLeaving(st.commands, id, CommandStep(st, id).commands, s);
  }

  lemma UnsubscribeLeftOver(st: State, id: nat, s: string)
    requires Inv(st) && id in st.commands && Removes(st.commands[id])
    ensures LeftOver(CommandStep(st, id), s) <==>
              Leaves(st, Advance(id), s) || (LeftOver(st, s) && !Clears(st, Advance(id), s))
  {
    assert CommandOk(st, st.commands[id]);
    LeavingSplit(st.commands, id, s);
    CommandLeaving(st, id, s);
    NobodyElseLeaves(st, id, s);
  }

  lemma SubscribeLeftOver(st: State, id: nat, s: string)
    requires AllWanted(st) && id in st.commands && !Removes(st.commands[id])
    ensures LeftOver(CommandStep(st, id), s) <==>
              Leaves(st, Advance(id), s) || (LeftOver(st, s) && !Clears(st, Advance(id), s))
  {
    assert Wanted(st, st.commands[id]);
    LeavingSplit(st.commands, id, s);
    CommandLeaving(st, id, s);
  }

  lemma NobodyElseLeaves(st: State, id: nat, s: string)
    requires Alone(st.commands) && id in st.commands && Removes(st.commands[id])
    ensures !Leaving(st.commands - {id}, s)
  {
  }

  lemma SameLeaving(commands: map<nat, Command>, id: nat, c: Command, s: string)
    requires id !in commands
    ensures Leaving(commands[id := c], s) <==> WillUnquote(c, s) || Leaving(commands, s)
  {
    LeavingPut(commands, id, c, s);
    assert commands - {id} == commands;
  }

  lemma RaiseLeftOver(st: State, id: nat, s: string)
    requires Inv(st) && id in st.commands && Calls(st.commands[id])
    ensures LeftOver(Put(st, id, None), s) <==> Leaves(st, Raise(id), s) || LeftOver(st, s)
  {
    assert CommandOk(st, st.commands[id]);
    LeavingSplit(st.commands, id, s);
    if st.commands[id].Unquoting? { NobodyElseLeaves(st, id, s); }
  }

  lemma StepLeftOver(st: State, e: Event, s: string)
    requires Inv(st) && AllWanted(st) && Enabled(st, e)
    ensures LeftOver(Step(st, e), s) <==> Leaves(st, e, s) || (LeftOver(st, s) && !Clears(st, e, s))
  {
    match e
    case Advance(id) =>
      if Removes(st.commands[id]) { UnsubscribeLeftOver(st, id, s); } else { SubscribeLeftOver(st, id, s); }
    case Raise(id) => RaiseLeftOver(st, id, s);
    case BeginSubscribe(id, symbols) => SameLeaving(st.commands, id, Adding(symbols, symbols), s);
    case BeginUnsubscribe(id, symbols) => SameLeaving(st.commands, id, Discarding(symbols, symbols), s);
    case _ =>
  }

  /** What each event of a run did to whether `s` is left behind. */
  ghost function LeftTurns(initial: set<string>, events: seq<Event>, s: string): seq<Turn> {
    if events == [] then []
    else
      var n := |events| - 1;
      var before := Run(Start(initial), events[..n]);
      LeftTurns(initial, events[..n], s) +
      [if before.None? then Turn(false, false)
       else Turn(Leaves(before.value, events[n], s), Clears(before.value, events[n], s))]
  }

  /** Some event of the run left `s` behind and no later one cleared it. */
  ghost predicate LeftBehind(initial: set<string>, events: seq<Event>, s: string) {
    Latched(LeftTurns(initial, events, s))
  }

  lemma {:induction false} RunLeftOver(initial: set<string>, events: seq<Event>, st: State, s: string)
    requires Run(Start(initial), events) == Some(st)
    ensures AllWanted(st)
    ensures LeftOver(st, s) <==> LeftBehind(initial, events, s)
  {
    if events != [] {
      var n := |events| - 1;
      var before := Run(Start(initial), events[..n]).value;
      RunLeftOver(initial, events[..n], before, s);
      RunInv(initial, events[..n], before);
      StepWanted(before, events[n]);
      StepLeftOver(before, events[n], s);
      LatchedSnoc(LeftTurns(initial, events[..n], s), Turn(Leaves(before, events[n], s), Clears(before, events[n], s)));
    }
  }

  /**
   * In a state with no command running, a symbol is subscribed natively without
   * being active exactly when the run left it behind: the ready callback
   * subscribed it after its removal, an unsubscribe saw the flag down or raised
   * before withdrawing it, and nobody has subscribed or unsubscribed it, and no
   * connection has changed, since.
   */
  lemma LeftBehindExactly(initial: set<string>, events: seq<Event>, st: State)
    requires Run(Start(initial), events) == Some(st) && st.commands == map[]
    ensures forall s :: s in st.quoted && s !in st.active <==> LeftBehind(initial, events, s)
    ensures st.quoted <= st.active <==> forall s :: !LeftBehind(initial, events, s)
  {
    forall s ensures s in st.quoted && s !in st.active <==> LeftBehind(initial, events, s) {
      RunLeftOver(initial, events, st, s);
      assert !Leaving(st.commands, s);
    }
  }

  lemma Extend(initial: set<string>, events: seq<Event>, st: State, e: Event)
    requires Run(Start(initial), events) == Some(st) && Enabled(st, e)
    ensures Run(Start(initial), events + [e]) == Some(Step(st, e))
  {
    assert (events + [e])[..|events|] == events;
  }

  /** A login whose callback found nothing to subscribe, and a subscribe of `s` up to its native call. */
  lemma Subscribing(s: string) returns (events: seq<Event>)
    ensures Run(Start({}), events) == Some(State({s}, true, true, false, {}, map[0 := Quoting([s])], None))
  {
    events := [Login];
    assert Run(Start({}), []) == Some(Start({}));
    Extend({}, [], Start({}), Login);
    var idle := State({}, true, true, false, {}, map[], None);
    Extend({}, events, Step(Start({}), Login), AdvanceCallback(s));
    events := events + [AdvanceCallback(s)];
    Extend({}, events, idle.(callback := Some(Snapshotting)), AdvanceCallback(s));
    events := events + [AdvanceCallback(s)];
    Extend({}, events, idle.(callback := Some(Requoting({}))), AdvanceCallback(s));
    events := events + [AdvanceCallback(s)];
    Extend({}, events, idle, BeginSubscribe(0, [s]));
    events := events + [BeginSubscribe(0, [s])];
    assert {} + {s} == {s} && [s][1..] == [];
    var wanted := idle.(active := {s});
    Advances(events, idle, Adding([s], [s]), wanted, Adding([], [s]));
    events := events + [Advance(0)];
    Advances(events, wanted, Adding([], [s]), wanted, Testing([s]));
    events := events + [Advance(0)];
    Advances(events, wanted, Testing([s]), wanted, Quoting([s]));
    events := events + [Advance(0)];
  }

  lemma Advances(events: seq<Event>, st: State, c: Command, st': State, c': Command)
    requires Run(Start({}), events) == Some(Put(st, 0, Some(c)))
    requires st.commands == map[] && st'.commands == map[]
    requires CommandStep(Put(st, 0, Some(c)), 0) == Put(Put(st', 0, Some(c)), 0, Some(c'))
    ensures Run(Start({}), events + [Advance(0)]) == Some(Put(st', 0, Some(c')))
  {
    Extend({}, events, Put(st, 0, Some(c)), Advance(0));
    assert map[0 := c][0 := c'] == map[0 := c'];
  }

  /**
   * Losing does happen: for every symbol, a native call that raises leaves the
   * session quiet and ready with the symbol active and not subscribed.
   */
  lemma RaiseLosesSubscription(s: string) returns (events: seq<Event>, st: State)
    ensures Run(Start({}), events) == Some(st)
    ensures st.commands == map[] && st.callback.None? && st.ready && st.loggedIn
    ensures s in st.active && s !in st.quoted
  {
    events := Subscribing(s);
    var before := State({s}, true, true, false, {}, map[0 := Quoting([s])], None);
    Extend({}, events, before, Raise(0));
    events, st := events + [Raise(0)], Step(before, Raise(0));
  }

  /** A login whose callback has taken its snapshot of the one active symbol. */
  lemma Snapshotted(s: string) returns (events: seq<Event>)
    ensures Run(Start({s}), events) == Some(State({s}, true, true, false, {}, map[], Some(Requoting({s}))))
  {
    var start := Start({s});
    assert Run(start, []) == Some(start);
    Extend({s}, [], start, Login);
    Extend({s}, [] + [Login], Step(start, Login), AdvanceCallback(s));
    var raised := State({s}, true, true, false, {}, map[], Some(Snapshotting));
    Extend({s}, [] + [Login] + [AdvanceCallback(s)], raised, AdvanceCallback(s));
    events := [] + [Login] + [AdvanceCallback(s)] + [AdvanceCallback(s)];
  }

  /** The unsubscribe of `s` alone, with the callback about to subscribe it. */
  function Overtaking(s: string, active: set<string>, c: Command): State {
    State(active, true, true, false, {}, map[0 := c], Some(Requoting({s})))
  }

  lemma Overtakes(s: string, events: seq<Event>, active: set<string>, c: Command, active': set<string>, c': Command)
    requires Run(Start({s}), events) == Some(Overtaking(s, active, c))
    requires CommandStep(Overtaking(s, active, c), 0) == Put(Overtaking(s, active', c), 0, Some(c'))
    ensures Run(Start({s}), events + [Advance(0)]) == Some(Overtaking(s, active', c'))
  {
    Extend({s}, events, Overtaking(s, active, c), Advance(0));
    assert map[0 := c][0 := c'] == map[0 := c'];
  }

  /** A whole unsubscribe of `s` in that state. */
  lemma Unsubscribed(s: string, events: seq<Event>) returns (events': seq<Event>)
    requires Run(Start({s}), events) == Some(State({s}, true, true, false, {}, map[], Some(Requoting({s}))))
    ensures Run(Start({s}), events') == Some(State({}, true, true, false, {}, map[], Some(Requoting({s}))))
  {
    var cb := Some(Requoting({s}));
    Extend({s}, events, State({s}, true, true, false, {}, map[], cb), BeginUnsubscribe(0, [s]));
    var e := events + [BeginUnsubscribe(0, [s])];
    assert {s} - {s} == {} && [s][1..] == [];
    Overtakes(s, e, {s}, Discarding([s], [s]), {}, Discarding([], [s]));
    e := e + [Advance(0)];
    Overtakes(s, e, {}, Discarding([], [s]), {}, TestingOut([s]));
    e := e + [Advance(0)];
    Overtakes(s, e, {}, TestingOut([s]), {}, Unquoting([s]));
    e := e + [Advance(0)];
    Overtakes(s, e, {}, Unquoting([s]), {}, Unquoting([]));
    e := e + [Advance(0)];
    Extend({s}, e, Overtaking(s, {}, Unquoting([])), Advance(0));
    assert map[0 := Unquoting([])] - {0} == map[];
    events' := e + [Advance(0)];
  }

  /**
   * It does happen: the callback takes its snapshot, an unsubscribe of the symbol
   * runs to its end, and the callback subscribes it. The session ends quiet and
   * ready, subscribed to a symbol it has given up.
   */
  lemma CallbackOvertaken(s: string) returns (events: seq<Event>, st: State)
    ensures Run(Start({s}), events) == Some(st)
    ensures st.commands == map[] && st.callback.None? && st.ready && st.loggedIn
    ensures s in st.quoted && s !in st.active
  {
    events := Snapshotted(s);
    events := Unsubscribed(s, events);
    var left := State({}, true, true, false, {}, map[], Some(Requoting({s})));
    Extend({s}, events, left, AdvanceCallback(s));
    assert {s} - {s} == {} && {} + {s} == {s};
    var quoted := State({}, true, true, false, {s}, map[], Some(Requoting({})));
    Extend({s}, events + [AdvanceCallback(s)], quoted, AdvanceCallback(s));
    events := events + [AdvanceCallback(s)] + [AdvanceCallback(s)];
    st := State({}, true, true, false, {s}, map[], None);
  }
}
