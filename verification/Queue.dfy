/** How a replica works through its message queue: pass after pass from the front, until
    a pass moves nothing. */
module Queue {
  import opened Types
  import opened Handlers
  import opened Progress

  /** What happens while a queue is processed. */
  datatype Event =
    | Discarded(inb: Inbound)
    | Handled(inb: Inbound)
    | LeftView(stuck: Inbound)
    | BeganRecovery(dropped: seq<Inbound>)

  datatype Outcome = Outcome(state: State, queue: seq<Inbound>, sent: seq<Output>, events: seq<Event>)

  /** r, preceded by `sent` and `events`. */
  function After(sent: seq<Output>, events: seq<Event>, r: Outcome): Outcome {
    r.(sent := sent + r.sent, events := events + r.events)
  }

  /** One pass: take messages off the front until one has to wait. */
  function Drain(s: State, q: seq<Inbound>): (r: Outcome)
    ensures |r.queue| <= |q| && (r.events != [] ==> |r.queue| < |q|)
    ensures r.events == [] ==> r == Outcome(s, q, [], [])
    ensures r.queue != [] ==> !Stale(r.state, r.queue[0].message) && !CanProcess(r.state, r.queue[0].message)
    decreases |q|
  {
    if q == [] then Outcome(s, q, [], [])
    else if Stale(s, q[0].message) then After([], [Discarded(q[0])], Drain(s, q[1..]))
    else if CanProcess(s, q[0].message) then
      var e := Dispatch(s, q[0]);
      After(e.sent, [Handled(q[0])], Drain(e.state, q[1..]))
    else Outcome(s, q, [], [])
  }

  /** What the replica does about a message that keeps it waiting. */
  function Unstick(s: State, q: seq<Inbound>, nonce: U128): (r: Outcome)
    ensures |r.queue| <= |q|
  {
    if q != [] && s.status == Normal then
      match StuckAction(s, q[0].message)
      case StartRecovery =>
        var e := InitiateRecovery(s, nonce);
        Outcome(e.state, [], e.sent, [BeganRecovery(q)])
      case StartChange =>
        var e := InitiateViewChange(s);
        Outcome(e.state, q, e.sent, [LeftView(q[0])])
      case ProcessNormally => Outcome(s, q, [], [])
    else Outcome(s, q, [], [])
  }

  /** One pass and what follows it. */
  function Pass(s: State, q: seq<Inbound>, nonce: U128): (r: Outcome)
    ensures |r.queue| <= |q| && (Drain(s, q).events != [] ==> |r.queue| < |q|)
  {
    var d := Drain(s, q);
    After(d.sent, d.events, Unstick(d.state, d.queue, nonce))
  }

  /** Passes until one takes nothing off the queue. */
  function ProcessQueue(s: State, q: seq<Inbound>, nonce: U128): Outcome
    decreases |q|
  {
    var pass := Pass(s, q, nonce);
    if Drain(s, q).events == [] then pass
    else After(pass.sent, pass.events, ProcessQueue(pass.state, pass.queue, nonce))
  }

  // First in, first out

  /** The messages that events took off the queue, in order. */
  function Taken(events: seq<Event>): seq<Inbound> {
    if events == [] then [] else Taken(events[..|events| - 1]) + TakenBy(events[|events| - 1])
  }

  function TakenBy(event: Event): seq<Inbound> {
    match event
    case Discarded(inb) => [inb]
    case Handled(inb) => [inb]
    case LeftView(_) => []
    case BeganRecovery(dropped) => dropped
  }

  lemma {:induction false} TakenJoin(a: seq<Event>, b: seq<Event>)
    ensures Taken(a + b) == Taken(a) + Taken(b)
  {
    if b == [] {
      assert a + b == a;
    } else {
      var k := |b| - 1;
      assert (a + b)[..|a + b| - 1] == a + b[..k] && (a + b)[|a + b| - 1] == b[k];
      TakenJoin(a, b[..k]);
      Regroup(Taken(a), Taken(b[..k]), TakenBy(b[k]));
    }
  }

  lemma {:induction false} TakenOne(event: Event)
    ensures event.Discarded? || event.Handled? ==> Taken([event]) == [event.inb]
    ensures event.LeftView? ==> Taken([event]) == []
    ensures event.BeganRecovery? ==> Taken([event]) == event.dropped
  {
    assert [event][..0] == [];
  }

  /** `events` took the front of q and left `rest`. */
  ghost predicate Takes(q: seq<Inbound>, events: seq<Event>, rest: seq<Inbound>) {
    Taken(events) + rest == q
  }

  lemma {:induction false} TakesJoin(q: seq<Inbound>, a: seq<Event>, mid: seq<Inbound>, b: seq<Event>, rest: seq<Inbound>)
    requires Takes(q, a, mid) && Takes(mid, b, rest)
    ensures Takes(q, a + b, rest)
  {
    TakenJoin(a, b);
    assert Taken(a) + Taken(b) + rest == Taken(a) + (Taken(b) + rest);
  }

  lemma {:induction false} TakesFront(q: seq<Inbound>, event: Event)
    requires q != [] && (event.Discarded? || event.Handled?) && event.inb == q[0]
    ensures Takes(q, [event], q[1..])
  {
    TakenOne(event);
  }

  lemma {:induction false} DrainTakes(s: State, q: seq<Inbound>)
    ensures Takes(q, Drain(s, q).events, Drain(s, q).queue)
    decreases |q|
  {
    if q != [] {
      if Stale(s, q[0].message) {
        DrainTakes(s, q[1..]);
        var d := Drain(s, q[1..]);
        TakesFront(q, Discarded(q[0]));
        TakesJoin(q, [Discarded(q[0])], q[1..], d.events, d.queue);
      } else if CanProcess(s, q[0].message) {
        var s' := Dispatch(s, q[0]).state;
        DrainTakes(s', q[1..]);
        var d := Drain(s', q[1..]);
        TakesFront(q, Handled(q[0]));
        TakesJoin(q, [Handled(q[0])], q[1..], d.events, d.queue);
      }
    }
  }

  lemma {:induction false} UnstickTakes(s: State, q: seq<Inbound>, nonce: U128)
    ensures Takes(q, Unstick(s, q, nonce).events, Unstick(s, q, nonce).queue)
  {
    var events := Unstick(s, q, nonce).events;
    if events != [] {
      TakenOne(events[0]);
      assert events == [events[0]];
    }
  }

  lemma {:induction false} PassTakes(s: State, q: seq<Inbound>, nonce: U128)
    ensures Takes(q, Pass(s, q, nonce).events, Pass(s, q, nonce).queue)
  {
    var d := Drain(s, q);
    var u := Unstick(d.state, d.queue, nonce);
    DrainTakes(s, q);
    UnstickTakes(d.state, d.queue, nonce);
    TakesJoin(q, d.events, d.queue, u.events, u.queue);
  }

  /** Conservation: what was taken, in the order it was taken, and what is left make up the
      queue; only the start of a recovery takes more than the front message. */
  lemma {:induction false} QueueIsFifo(s: State, q: seq<Inbound>, nonce: U128)
    ensures var r := ProcessQueue(s, q, nonce); Taken(r.events) + r.queue == q
    decreases |q|
  {
    var pass := Pass(s, q, nonce);
    PassTakes(s, q, nonce);
    if Drain(s, q).events != [] {
      QueueIsFifo(pass.state, pass.queue, nonce);
      var r := ProcessQueue(pass.state, pass.queue, nonce);
      TakesJoin(q, pass.events, pass.queue, r.events, r.queue);
    }
  }

  /** When processing ends in the normal state with messages left, the front one is not
      stale, cannot be processed, and calls for no view change and no recovery. */
  lemma {:induction false} EndsSettled(s: State, q: seq<Inbound>, nonce: U128)
    ensures var r := ProcessQueue(s, q, nonce);
      r.state.status == Normal && r.queue != [] ==>
        && !Stale(r.state, r.queue[0].message) && !CanProcess(r.state, r.queue[0].message)
        && StuckAction(r.state, r.queue[0].message) == ProcessNormally
    decreases |q|
  {
    if Drain(s, q).events != [] {
      var pass := Pass(s, q, nonce);
      EndsSettled(pass.state, pass.queue, nonce);
    }
  }

  lemma {:induction false} UnstickSettles(s: State, q: seq<Inbound>, nonce: U128)
    ensures var r := Unstick(s, q, nonce);
      r.queue != [] && r.state.status == Normal ==> r.state == s && r.queue == q && StuckAction(s, q[0].message) == ProcessNormally
  {
  }

  /** The front of what is left has to wait, with one exception: a loop that did nothing but
      leave its view over the front message leaves that message there, even if it could now
      be processed. */
  lemma {:induction false} FrontWaits(s: State, q: seq<Inbound>, nonce: U128)
    ensures var r := ProcessQueue(s, q, nonce);
      r.queue != [] ==>
        || (!Stale(r.state, r.queue[0].message) && !CanProcess(r.state, r.queue[0].message))
        || (r.events == [LeftView(q[0])] && r.queue == q)
    decreases |q|
  {
    var d, pass := Drain(s, q), Pass(s, q, nonce);
    if d.events != [] {
      FrontWaits(pass.state, pass.queue, nonce);
      UnstickSettles(d.state, d.queue, nonce);
      if pass.queue != [] && ProcessQueue(pass.state, pass.queue, nonce).events == [LeftView(pass.queue[0])] {
        FirstPassLeaves(pass.state, pass.queue, nonce);
      }
    }
  }

  lemma {:induction false} FirstPassLeaves(s: State, q: seq<Inbound>, nonce: U128)
    requires q != [] && ProcessQueue(s, q, nonce).events == [LeftView(q[0])]
    ensures s.status == Normal && StuckAction(s, q[0].message) == StartChange
  {
    QueueExplained(s, q, nonce);
    var events := ProcessQueue(s, q, nonce).events;
    assert events[..0] == [] && Admits(StateAfter(s, events[..0], nonce), events[0]);
  }

  // What the events do

  /** One event at s: the new state and what is sent. */
  function Happens(s: State, event: Event, nonce: U128): Effect {
    match event
    case Discarded(_) => Effect(s, [])
    case Handled(inb) => Dispatch(s, inb)
    case LeftView(_) => InitiateViewChange(s)
    case BeganRecovery(_) => InitiateRecovery(s, nonce)
  }

  function Then(first: Effect, second: Effect): Effect {
    Effect(second.state, first.sent + second.sent)
  }

  /** The state that events lead to from s, and all they send, in order. */
  function Trace(s: State, events: seq<Event>, nonce: U128): Effect {
    if events == [] then Effect(s, []) else
    var before := Trace(s, events[..|events| - 1], nonce);
    Then(before, Happens(before.state, events[|events| - 1], nonce))
  }

  function StateAfter(s: State, events: seq<Event>, nonce: U128): State {
    Trace(s, events, nonce).state
  }

  /** Each event is admissible where it happens. */
  ghost predicate Admissible(s: State, events: seq<Event>, nonce: U128) {
    forall k :: 0 <= k < |events| ==> Admits(StateAfter(s, events[..k], nonce), events[k])
  }

  ghost predicate Admits(s: State, event: Event) {
    match event
    case Discarded(inb) => Stale(s, inb.message)
    case Handled(inb) => !Stale(s, inb.message) && CanProcess(s, inb.message)
    case LeftView(stuck) =>
      && s.status == Normal && StuckAction(s, stuck.message) == StartChange
      && !Stale(s, stuck.message) && !CanProcess(s, stuck.message)
    case BeganRecovery(dropped) =>
      && s.status == Normal && dropped != [] && StuckAction(s, dropped[0].message) == StartRecovery
      && !Stale(s, dropped[0].message) && !CanProcess(s, dropped[0].message)
  }

  lemma {:induction false} ThenAssociative(a: Effect, b: Effect, c: Effect)
    ensures Then(Then(a, b), c) == Then(a, Then(b, c))
  {
    assert a.sent + b.sent + c.sent == a.sent + (b.sent + c.sent);
  }

  lemma {:induction false} TraceOneMore(s: State, events: seq<Event>, event: Event, nonce: U128)
    ensures var before := Trace(s, events, nonce);
      Trace(s, events + [event], nonce) == Then(before, Happens(before.state, event, nonce))
  {
    assert (events + [event])[..|events|] == events;
  }

  lemma {:induction false} TraceJoin(s: State, a: seq<Event>, b: seq<Event>, nonce: U128)
    ensures var first := Trace(s, a, nonce);
      Trace(s, a + b, nonce) == Then(first, Trace(first.state, b, nonce))
  {
    if b == [] {
      assert a + b == a;
    } else {
      var k := |b| - 1;
      assert a + b == (a + b[..k]) + [b[k]] && b == b[..k] + [b[k]];
      TraceJoin(s, a, b[..k], nonce);
      TraceJoinOne(s, a, b[..k], b[k], nonce);
    }
  }

  lemma {:induction false} TraceJoinOne(s: State, a: seq<Event>, b: seq<Event>, event: Event, nonce: U128)
    requires var first := Trace(s, a, nonce); Trace(s, a + b, nonce) == Then(first, Trace(first.state, b, nonce))
    ensures var first := Trace(s, a, nonce); Trace(s, a + b + [event], nonce) == Then(first, Trace(first.state, b + [event], nonce))
  {
    var first := Trace(s, a, nonce);
    var mid := Trace(first.state, b, nonce);
    TraceOneMore(s, a + b, event, nonce);
    TraceOneMore(first.state, b, event, nonce);
    ThenAssociative(first, mid, Happens(mid.state, event, nonce));
  }

  lemma {:induction false} AdmissibleJoin(s: State, a: seq<Event>, b: seq<Event>, nonce: U128)
    requires Admissible(s, a, nonce) && Admissible(StateAfter(s, a, nonce), b, nonce)
    ensures Admissible(s, a + b, nonce)
  {
    forall k | 0 <= k < |a + b| ensures Admits(StateAfter(s, (a + b)[..k], nonce), (a + b)[k]) {
      if k < |a| {
        assert (a + b)[..k] == a[..k];
      } else {
        assert (a + b)[..k] == a + b[..k - |a|];
        TraceJoin(s, a, b[..k - |a|], nonce);
      }
    }
  }

  /** r's state and output are what its events lead to from s. */
  ghost predicate Explains(s: State, r: Outcome, nonce: U128) {
    Admissible(s, r.events, nonce) && Trace(s, r.events, nonce) == Effect(r.state, r.sent)
  }

  lemma {:induction false} ExplainsAfter(s: State, e: Effect, events: seq<Event>, r: Outcome, nonce: U128)
    requires Admissible(s, events, nonce) && Trace(s, events, nonce) == e && Explains(e.state, r, nonce)
    ensures Explains(s, After(e.sent, events, r), nonce)
  {
    AdmissibleJoin(s, events, r.events, nonce);
    TraceJoin(s, events, r.events, nonce);
  }

  lemma {:induction false} OneEvent(s: State, event: Event, nonce: U128)
    requires Admits(s, event)
    ensures Admissible(s, [event], nonce) && Trace(s, [event], nonce) == Happens(s, event, nonce)
  {
    assert [event][..0] == [];
    assert Trace(s, [], nonce) == Effect(s, []);
    ThenFromNothing(s, Happens(s, event, nonce));
  }

  lemma {:induction false} ThenFromNothing(s: State, e: Effect)
    ensures Then(Effect(s, []), e) == e
  {
    assert [] + e.sent == e.sent;
  }

  lemma {:induction false} DrainExplained(s: State, q: seq<Inbound>, nonce: U128)
    ensures Explains(s, Drain(s, q), nonce)
    decreases |q|
  {
    if q != [] {
      if Stale(s, q[0].message) {
        DrainExplained(s, q[1..], nonce);
        OneEvent(s, Discarded(q[0]), nonce);
        ExplainsAfter(s, Effect(s, []), [Discarded(q[0])], Drain(s, q[1..]), nonce);
      } else if CanProcess(s, q[0].message) {
        var e := Dispatch(s, q[0]);
        DrainExplained(e.state, q[1..], nonce);
        OneEvent(s, Handled(q[0]), nonce);
        ExplainsAfter(s, e, [Handled(q[0])], Drain(e.state, q[1..]), nonce);
      }
    }
  }

  lemma {:induction false} PassExplained(s: State, q: seq<Inbound>, nonce: U128)
    ensures Explains(s, Pass(s, q, nonce), nonce)
  {
    var d := Drain(s, q);
    var u := Unstick(d.state, d.queue, nonce);
    DrainExplained(s, q, nonce);
    if u.events != [] {
      OneEvent(d.state, u.events[0], nonce);
    }
    ExplainsAfter(s, Effect(d.state, d.sent), d.events, u, nonce);
  }

  /** Every event of processing is one that the guards admit where it happens, and the
      events together lead to the resulting state and send exactly what was sent. */
  lemma {:induction false} QueueExplained(s: State, q: seq<Inbound>, nonce: U128)
    ensures Explains(s, ProcessQueue(s, q, nonce), nonce)
    decreases |q|
  {
    var pass := Pass(s, q, nonce);
    PassExplained(s, q, nonce);
    if Drain(s, q).events != [] {
      QueueExplained(pass.state, pass.queue, nonce);
      ExplainsAfter(s, Effect(pass.state, pass.sent), pass.events, ProcessQueue(pass.state, pass.queue, nonce), nonce);
    }
  }

  lemma {:induction false} EventsAdvance(s: State, events: seq<Event>, nonce: U128)
    requires StatusOk(s) && Admissible(s, events, nonce)
    ensures StatusOk(StateAfter(s, events, nonce)) && s.view <= StateAfter(s, events, nonce).view
  {
    if events != [] {
      var k := |events| - 1;
      assert forall j :: 0 <= j < k ==> events[..k][..j] == events[..j];
      EventsAdvance(s, events[..k], nonce);
      var s' := StateAfter(s, events[..k], nonce);
      assert Admits(s', events[k]);
      if events[k].Handled? {
        HandlerAdvances(s', events[k].inb);
      }
    }
  }

  /** Processing a queue never takes a replica back to an earlier view. */
  lemma {:induction false} QueueAdvances(s: State, q: seq<Inbound>, nonce: U128)
    requires StatusOk(s)
    ensures var r := ProcessQueue(s, q, nonce); StatusOk(r.state) && s.view <= r.state.view
  {
    QueueExplained(s, q, nonce);
    EventsAdvance(s, ProcessQueue(s, q, nonce).events, nonce);
  }

  lemma {:induction false} PassRecoversLast(s: State, q: seq<Inbound>, nonce: U128, k: nat)
    requires k < |Pass(s, q, nonce).events| && Pass(s, q, nonce).events[k].BeganRecovery?
    ensures k == |Pass(s, q, nonce).events| - 1 && Pass(s, q, nonce).queue == []
  {
    var d := Drain(s, q);
    if k < |d.events| {
      DrainOnlyTakes(s, q, k);
    }
  }

  lemma {:induction false} EmptyQueueDoesNothing(s: State, nonce: U128)
    ensures ProcessQueue(s, [], nonce).events == []
  {
  }

  /** A recovery is begun at most once, nothing follows it, and it empties the queue. */
  lemma {:induction false} RecoveryComesLast(s: State, q: seq<Inbound>, nonce: U128, k: nat)
    requires k < |ProcessQueue(s, q, nonce).events| && ProcessQueue(s, q, nonce).events[k].BeganRecovery?
    ensures k == |ProcessQueue(s, q, nonce).events| - 1 && ProcessQueue(s, q, nonce).queue == []
    decreases |q|
  {
    var pass := Pass(s, q, nonce);
    if k < |pass.events| {
      PassRecoversLast(s, q, nonce, k);
      EmptyQueueDoesNothing(pass.state, nonce);
    } else {
      RecoveryComesLast(pass.state, pass.queue, nonce, k - |pass.events|);
    }
  }

  lemma {:induction false} DrainOnlyTakes(s: State, q: seq<Inbound>, k: nat)
    requires k < |Drain(s, q).events|
    ensures !Drain(s, q).events[k].BeganRecovery?
    decreases |q|
  {
    if Stale(s, q[0].message) {
      if k > 0 {
        DrainOnlyTakes(s, q[1..], k - 1);
      }
    } else if k > 0 {
      DrainOnlyTakes(Dispatch(s, q[0]).state, q[1..], k - 1);
    }
  }
}
