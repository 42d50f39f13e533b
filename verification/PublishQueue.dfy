/** The bounded queue between the callbacks that publish and the publisher thread. */
module PublishQueue {
  import opened Prelude
  import opened Text

  datatype Item = Item(topic: string, event: string, data: string)

  datatype Attempt = Attempt(item: Item, sent: bool)

  datatype Failure = BlankTopic

  /** `encodable`: the payload has a JSON form and the socket takes the message. */
  predicate Sends(item: Item, encodable: bool) {
    Strip(item.event) != "" && encodable
  }

  /**
   * `hand`: what the publisher took and has not dealt with. `offered`, `accepted`,
   * `dropped` and `attempts` are the history.
   */
  datatype State = State(
    bound: nat, queue: seq<Item>, hand: Option<Item>, active: bool, ended: bool,
    offered: seq<Item>, accepted: seq<Item>, dropped: seq<Item>, attempts: seq<Attempt>)

  function Fresh(bound: nat): State {
    State(bound, [], None, true, false, [], [], [], [])
  }

  function Enqueued(s: State, item: Item): State {
    if Strip(item.topic) == "" then s
    else if |s.queue| < s.bound then
      s.(queue := s.queue + [item], offered := s.offered + [item], accepted := s.accepted + [item])
    else s.(offered := s.offered + [item], dropped := s.dropped + [item])
  }

  function Taken(s: State): State
    requires s.queue != []
  {
    s.(hand := Some(s.queue[0]), queue := s.queue[1..])
  }

  function Attempted(s: State, encodable: bool): State
    requires s.hand.Some?
  {
    s.(hand := None, attempts := s.attempts + [Attempt(s.hand.value, Sends(s.hand.value, encodable))])
  }

  /** The publisher alone, once the proxy has stopped. */
  function Drained(s: State, encodable: Item -> bool): State
    requires s.hand.None?
    decreases |s.queue|
  {
    if s.queue == [] then s.(ended := true)
    else Drained(Attempted(Taken(s), encodable(s.queue[0])), encodable)
  }

  class Publisher {
    const bound: nat
    var queue: seq<Item>
    var hand: Option<Item>
    var active: bool
    var ended: bool
    ghost var offered: seq<Item>
    ghost var accepted: seq<Item>
    ghost var dropped: seq<Item>
    ghost var attempts: seq<Attempt>

    ghost function View(): State
      reads this
    {
      State(bound, queue, hand, active, ended, offered, accepted, dropped, attempts)
    }

    constructor (bound: nat)
      ensures View() == Fresh(bound)
    {
      this.bound, queue, hand, active, ended := bound, [], None, true, false;
      offered, accepted, dropped, attempts := [], [], [], [];
    }

    method EnqueuePublish(item: Item) returns (r: Result<(), Failure>)
      modifies this
      ensures View() == Enqueued(old(View()), item)
      ensures r == if Strip(item.topic) == "" then Err(BlankTopic) else Ok(())
    {
      if Strip(item.topic) == "" {
        return Err(BlankTopic);
      }
      offered := offered + [item];
      if |queue| < bound {
        queue, accepted := queue + [item], accepted + [item];
      } else {
        dropped := dropped + [item];
      }
      return Ok(());
    }

    method Get()
      requires queue != []
      modifies this
      ensures View() == Taken(old(View()))
    {
      hand, queue := Some(queue[0]), queue[1..];
    }

    /** Encode and send what is in hand; a failure is logged and the item is gone. */
    method Send(encodable: bool) returns (sent: bool)
      requires hand.Some?
      modifies this
      ensures View() == Attempted(old(View()), encodable)
      ensures sent == Sends(old(hand).value, encodable)
    {
      sent := Strip(hand.value.event) != "" && encodable;
      attempts := attempts + [Attempt(hand.value, sent)];
      hand := None;
    }

    /** The publisher's loop after `active` was cleared, no producer being left. */
    method Drain(encodable: Item -> bool)
      requires !active && hand.None?
      modifies this
      ensures View() == Drained(old(View()), encodable)
    {
      while queue != []
        invariant !active && hand.None?
        invariant Drained(View(), encodable) == Drained(old(View()), encodable)
        decreases |queue|
      {
        Get();
        var _ := Send(encodable(hand.value));
      }
      ended := true;
    }
  }

  // ---- Interleavings ----

  datatype Event = Put(item: Item) | Take | Deal(encodable: bool) | Stop | Leave

  /** Producers may act at any time; the publisher acts in its own order and may leave once stopped and empty. */
  predicate Enabled(s: State, e: Event) {
    match e
    case Put(_) => true
    case Take => !s.ended && s.hand.None? && s.queue != []
    case Deal(_) => !s.ended && s.hand.Some?
    case Stop => true
    case Leave => !s.ended && !s.active && s.hand.None? && s.queue == []
  }

  function Step(s: State, e: Event): State
    requires Enabled(s, e)
  {
    match e
    case Put(item) => Enqueued(s, item)
    case Take => Taken(s)
    case Deal(encodable) => Attempted(s, encodable)
    case Stop => s.(active := false)
    case Leave => s.(ended := true)
  }

  function Run(bound: nat, events: seq<Event>): Option<State>
    decreases |events|
  {
    if events == [] then Some(Fresh(bound))
    else
      var before := Run(bound, events[..|events| - 1]);
      var e := events[|events| - 1];
      if before.Some? && Enabled(before.value, e) then Some(Step(before.value, e)) else None
  }

  // ---- Conservation ----

  function Items(attempts: seq<Attempt>): (r: seq<Item>)
    ensures |r| == |attempts|
  {
    seq(|attempts|, i requires 0 <= i < |attempts| => attempts[i].item)
  }

  function InHand(s: State): seq<Item> {
    if s.hand.Some? then [s.hand.value] else []
  }

  function Count(items: seq<Item>, x: Item): nat {
    if items == [] then 0 else Count(items[..|items| - 1], x) + if items[|items| - 1] == x then 1 else 0
  }

  /** How often `x` was attempted with this outcome. */
  function Outcomes(attempts: seq<Attempt>, x: Item, sent: bool): nat {
    if attempts == [] then 0
    else Outcomes(attempts[..|attempts| - 1], x, sent) + if attempts[|attempts| - 1] == Attempt(x, sent) then 1 else 0
  }

  /** Accepted items are attempted in order; what is left is in hand, then in the queue, which is never too long. */
  ghost predicate Orderly(s: State) {
    && s.accepted == Items(s.attempts) + InHand(s) + s.queue
    && |s.queue| <= s.bound
  }

  /** Offers are accounted for; only items with a topic are offered and only events with a name are sent. */
  ghost predicate Accounted(s: State, x: Item) {
    && Count(s.offered, x) == Count(s.accepted, x) + Count(s.dropped, x)
    && (Strip(x.topic) == "" ==> Count(s.offered, x) == 0)
    && (Strip(x.event) == "" ==> Outcomes(s.attempts, x, true) == 0)
  }

  lemma ItemsSnoc(attempts: seq<Attempt>, a: Attempt)
    ensures Items(attempts + [a]) == Items(attempts) + [a.item]
  {
  }

  lemma CountSnoc(items: seq<Item>, y: Item, x: Item)
    ensures Count(items + [y], x) == Count(items, x) + if y == x then 1 else 0
  {
    assert (items + [y])[..|items|] == items;
  }

  lemma {:induction false} CountAppend(a: seq<Item>, b: seq<Item>, x: Item)
    ensures Count(a + b, x) == Count(a, x) + Count(b, x)
  {
    if b == [] {
      assert a + b == a;
    } else {
      var n := |b| - 1;
      CountAppend(a, b[..n], x);
      assert a + b == (a + b[..n]) + [b[n]] && b == b[..n] + [b[n]];
      CountSnoc(a + b[..n], b[n], x);
    }
  }

  lemma {:induction false} CountOutcomes(attempts: seq<Attempt>, x: Item)
    ensures Count(Items(attempts), x) == Outcomes(attempts, x, true) + Outcomes(attempts, x, false)
  {
    if attempts != [] {
      var n := |attempts| - 1;
      CountOutcomes(attempts[..n], x);
      assert attempts == attempts[..n] + [attempts[n]];
      ItemsSnoc(attempts[..n], attempts[n]);
      CountSnoc(Items(attempts[..n]), attempts[n].item, x);
    }
  }

  lemma StepOrderly(s: State, e: Event)
    requires Orderly(s) && Enabled(s, e)
    ensures Orderly(Step(s, e))
  {
    if e.Deal? {
      ItemsSnoc(s.attempts, Attempt(s.hand.value, Sends(s.hand.value, e.encodable)));
    }
  }

  lemma PutAccounted(s: State, item: Item, x: Item)
    requires Accounted(s, x)
    ensures Accounted(Enqueued(s, item), x)
  {
    CountSnoc(s.offered, item, x);
    if Strip(item.topic) == "" {
    } else if |s.queue| < s.bound {
      CountSnoc(s.accepted, item, x);
    } else {
      CountSnoc(s.dropped, item, x);
    }
  }

  lemma OutcomesSnoc(attempts: seq<Attempt>, a: Attempt, x: Item, sent: bool)
    ensures Outcomes(attempts + [a], x, sent) == Outcomes(attempts, x, sent) + if a == Attempt(x, sent) then 1 else 0
  {
    assert (attempts + [a])[..|attempts|] == attempts;
  }

  lemma StepAccounted(s: State, e: Event, x: Item)
    requires Accounted(s, x) && Enabled(s, e)
    ensures Accounted(Step(s, e), x)
  {
    if e.Put? {
      PutAccounted(s, e.item, x);
    } else if e.Deal? {
      OutcomesSnoc(s.attempts, Attempt(s.hand.value, Sends(s.hand.value, e.encodable)), x, true);
    }
  }

  lemma {:induction false} RunAccounted(bound: nat, events: seq<Event>, x: Item)
    requires Run(bound, events).Some?
    ensures Accounted(Run(bound, events).value, x)
  {
    if events != [] {
      var n := |events| - 1;
      RunAccounted(bound, events[..n], x);
      StepAccounted(Run(bound, events[..n]).value, events[n], x);
    }
  }

  lemma {:induction false} RunOrderly(bound: nat, events: seq<Event>)
    requires Run(bound, events).Some?
    ensures Orderly(Run(bound, events).value) && Run(bound, events).value.bound == bound
  {
    if events != [] {
      var n := |events| - 1;
      RunOrderly(bound, events[..n]);
      StepOrderly(Run(bound, events[..n]).value, events[n]);
    }
  }

  /**
   * In every interleaving the queue keeps its bound and the attempts are a first-in
   * first-out prefix of what was accepted.
   */
  lemma FirstInFirstOut(bound: nat, events: seq<Event>)
    requires Run(bound, events).Some?
    ensures var s := Run(bound, events).value;
            && |s.queue| <= bound
            && Items(s.attempts) <= s.accepted
            && s.accepted[|s.attempts|..] == InHand(s) + s.queue
  {
    RunOrderly(bound, events);
  }

  /**
   * Every item that was offered was sent, failed, was dropped, or is still held,
   * as often as it was offered; one without a topic is never offered, one without
   * an event name never sent.
   */
  lemma Conservation(bound: nat, events: seq<Event>, x: Item)
    requires Run(bound, events).Some?
    ensures var s := Run(bound, events).value;
            Count(s.offered, x) ==
              Outcomes(s.attempts, x, true) + Outcomes(s.attempts, x, false) + Count(s.dropped, x)
              + Count(InHand(s), x) + Count(s.queue, x)
    ensures Strip(x.topic) == "" ==> Count(Run(bound, events).value.offered, x) == 0
    ensures Strip(x.event) == "" ==> Outcomes(Run(bound, events).value.attempts, x, true) == 0
  {
    RunOrderly(bound, events);
    RunAccounted(bound, events, x);
    var s := Run(bound, events).value;
    CountOutcomes(s.attempts, x);
    CountAppend(Items(s.attempts) + InHand(s), s.queue, x);
    CountAppend(Items(s.attempts), InHand(s), x);
  }

  /** An offer is dropped exactly when `bound` accepted items wait to be taken. */
  lemma DroppedWhenFull(bound: nat, events: seq<Event>, item: Item)
    requires Run(bound, events).Some? && Strip(item.topic) != ""
    ensures var s, s' := Run(bound, events).value, Enqueued(Run(bound, events).value, item);
            var waiting := |s.accepted| - |s.attempts| - |InHand(s)|;
            && (s'.dropped == s.dropped + [item] <==> waiting == bound)
            && (s'.accepted == s.accepted + [item] <==> waiting < bound)
  {
    RunOrderly(bound, events);
  }

  /** When the publisher leaves, it has attempted everything accepted before. */
  lemma NothingLeftBehind(bound: nat, events: seq<Event>)
    requires Run(bound, events + [Leave]).Some?
    ensures var s := Run(bound, events + [Leave]).value; Items(s.attempts) == s.accepted
  {
    assert (events + [Leave])[..|events|] == events;
    RunOrderly(bound, events + [Leave]);
    RunOrderly(bound, events);
  }

  /** An item accepted after that is never attempted: once the publisher has left, attempts stop. */
  lemma {:induction false} AttemptsStop(bound: nat, events: seq<Event>, more: seq<Event>)
    requires Run(bound, events).Some? && Run(bound, events).value.ended
    requires Run(bound, events + more).Some?
    ensures var s, s' := Run(bound, events).value, Run(bound, events + more).value;
            s'.ended && s'.attempts == s.attempts && s.queue <= s'.queue
  {
    if more == [] {
      assert events + more == events;
    } else {
      var n := |more| - 1;
      assert (events + more)[..|events + more| - 1] == events + more[..n];
      AttemptsStop(bound, events, more[..n]);
    }
  }

  /** Left alone after a stop, the publisher attempts the whole queue in order and ends. */
  lemma {:induction false} DrainAttemptsAll(s: State, encodable: Item -> bool)
    requires s.hand.None?
    ensures var s' := Drained(s, encodable);
            && s'.ended && s'.queue == [] && s'.hand.None?
            && Items(s'.attempts) == Items(s.attempts) + s.queue
            && s'.accepted == s.accepted && s'.dropped == s.dropped
    decreases |s.queue|
  {
    if s.queue != [] {
      var next := Attempted(Taken(s), encodable(s.queue[0]));
      DrainAttemptsAll(next, encodable);
      ItemsSnoc(s.attempts, next.attempts[|s.attempts|]);
      assert s.queue == [s.queue[0]] + s.queue[1..];
    }
  }

  // ---- What an attempt records ----

  /** What the socket and the encoder did at each attempt of a run. */
  function Deals(events: seq<Event>): seq<bool> {
    if events == [] then []
    else
      var e := events[|events| - 1];
      Deals(events[..|events| - 1]) + if e.Deal? then [e.encodable] else []
  }

  /** An attempt counts as sent exactly when its event has a name and the payload went out. */
  lemma {:induction false} SentExactly(bound: nat, events: seq<Event>, i: nat)
    requires Run(bound, events).Some? && i < |Run(bound, events).value.attempts|
    ensures |Deals(events)| == |Run(bound, events).value.attempts|
    ensures var a := Run(bound, events).value.attempts[i]; a.sent <==> Strip(a.item.event) != "" && Deals(events)[i]
  {
    DealsMatch(bound, events);
    if events != [] {
      var n := |events| - 1;
      var s := Run(bound, events[..n]).value;
      DealsMatch(bound, events[..n]);
      if i < |s.attempts| { SentExactly(bound, events[..n], i); }
    }
  }

  lemma {:induction false} DealsMatch(bound: nat, events: seq<Event>)
    requires Run(bound, events).Some?
    ensures |Deals(events)| == |Run(bound, events).value.attempts|
  {
    if events != [] {
      DealsMatch(bound, events[..|events| - 1]);
    }
  }
}
