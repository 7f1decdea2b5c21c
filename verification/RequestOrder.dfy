/** At a primary that stays in its view, retransmitted and reordered requests are not
    logged twice, as long as clients wait for their logged requests to be executed. */
module RequestOrder {
  import opened Types
  import opened Execution
  import opened Handlers
  import opened Progress

  /** The client table knows a request number at least as high as any logged. */
  ghost predicate Covers(s: State) {
    forall k :: k in s.log ==> s.log[k].request <= Lookup(s.clients, s.log[k].client).request
  }

  /** Each client's request numbers increase along the log. */
  ghost predicate Increasing(log: Log) {
    forall a, b :: a in log && b in log && a < b && log[a].client == log[b].client ==> log[a].request < log[b].request
  }

  /** Only the latest logged request of a client can still be waiting for execution. */
  ghost predicate Settled(s: State) {
    forall a, b :: a in s.log && b in s.log && a < b && s.log[a].client == s.log[b].client ==> a <= s.lastExecuted
  }

  ghost predicate Orderly(s: State) {
    Numbered(s.log, s.op) && Covers(s) && Increasing(s.log) && Settled(s)
  }

  /** A client issues a request number above all it has logged only once all it has
      logged is executed; anything else it sends is a repetition. */
  ghost predicate Disciplined(s: State, m: Message) {
    (forall k :: k in s.log && s.log[k].client == m.client ==> s.log[k].request < m.request) ==>
      forall k :: k in s.log && s.log[k].client == m.client ==> k <= s.lastExecuted
  }

  lemma {:induction false} AppendedIncreasing(log: Log, op: nat, e: LogEntry)
    requires Numbered(log, op) && Increasing(log)
    ensures Increasing(log[op + 1 := e]) <==> forall k :: k in log && log[k].client == e.client ==> log[k].request < e.request
  {
    var log' := log[op + 1 := e];
    assert forall k :: k in log ==> k in log' && log'[k] == log[k] && k < op + 1;
    assert log'[op + 1] == e;
  }

  /** A request above everything the client has logged, all of it executed. */
  lemma {:induction false} AppendOrderly(s: State, inb: Inbound)
    requires Orderly(s)
    requires forall k :: k in s.log && s.log[k].client == inb.message.client ==>
               s.log[k].request < inb.message.request && k <= s.lastExecuted
    ensures Orderly(AppendRequest(s, inb))
  {
    AppendedIncreasing(s.log, s.op, EntryFor(s.view, inb.message, {s.id}));
    AppendCovers(s, inb);
    AppendSettled(s, inb);
  }

  lemma {:induction false} AppendCovers(s: State, inb: Inbound)
    requires Numbered(s.log, s.op) && Covers(s)
    requires forall k :: k in s.log && s.log[k].client == inb.message.client ==> s.log[k].request < inb.message.request
    ensures Covers(AppendRequest(s, inb))
  {
  }

  lemma {:induction false} AppendSettled(s: State, inb: Inbound)
    requires Numbered(s.log, s.op) && Settled(s)
    requires forall k :: k in s.log && s.log[k].client == inb.message.client ==> k <= s.lastExecuted
    ensures Settled(AppendRequest(s, inb))
  {
    var t := AppendRequest(s, inb);
    forall a, b | a in t.log && b in t.log && a < b && t.log[a].client == t.log[b].client ensures a <= t.lastExecuted {
      assert a in s.log && t.log[a] == s.log[a];
      assert b != s.op + 1 ==> b in s.log && t.log[b] == s.log[b];
    }
  }

  /** Looking a client up enters it in the table. */
  lemma {:induction false} LookedUpOrderly(s: State, client: U128)
    requires Orderly(s)
    ensures Orderly(s.(clients := s.clients[client := Lookup(s.clients, client)]))
  {
    var t := s.(clients := s.clients[client := Lookup(s.clients, client)]);
    assert forall c :: Lookup(t.clients, c) == Lookup(s.clients, c);
  }

  lemma {:induction false} RequestOrderly(s: State, inb: Inbound)
    requires Orderly(s) && Disciplined(s, inb.message)
    ensures Orderly(HandleRequest(s, inb).state)
  {
    var m := inb.message;
    if Lookup(s.clients, m.client).request < m.request {
      assert forall k :: k in s.log && s.log[k].client == m.client ==> s.log[k].request < m.request;
      AppendOrderly(s, inb);
    } else {
      LookedUpOrderly(s, m.client);
    }
  }

  /** Executing the next operation leaves the client's number where it was: the
      operation is that client's latest. */
  lemma {:induction false} ExecuteOneOrderly(s: State)
    requires Orderly(s) && CanExecute(s)
    ensures Orderly(ExecuteOne(s).state)
  {
    var k := s.lastExecuted + 1;
    var e := s.log[k];
    forall j | j in s.log && s.log[j].client == e.client ensures s.log[j].request <= e.request {
      assert j <= k;
    }
  }

  lemma {:induction false} ExecuteOrderly(s: State)
    requires Orderly(s)
    ensures Orderly(Execute(s).state)
    decreases s.commit - s.lastExecuted
  {
    if CanExecute(s) {
      ExecuteOneOrderly(s);
      ExecuteOrderly(ExecuteOne(s).state);
    }
  }

  lemma {:induction false} PrepareOkOrderly(s: State, m: Message)
    requires Orderly(s)
    ensures Orderly(HandlePrepareOk(s, m).state)
  {
    if m.op in s.log {
      var s' := s.(log := AddAck(s.log, m.op, m.replica));
      AckOrderly(s, s');
      CommitOrderly(s', AdvanceCommit(s').commit);
      ExecuteOrderly(AdvanceCommit(s'));
    }
  }

  lemma {:induction false} CommitOrderly(s: State, commit: nat)
    requires Orderly(s)
    ensures Orderly(s.(commit := commit))
  {
  }

  /** Acknowledgements do not matter to the order of requests. */
  lemma {:induction false} AckOrderly(s: State, t: State)
    requires Orderly(s) && t.log.Keys == s.log.Keys && forall k :: k in s.log ==> t.log[k].Bare() == s.log[k].Bare()
    requires t.op == s.op && t.lastExecuted == s.lastExecuted && t.clients == s.clients
    ensures Orderly(t)
  {
    assert forall k :: k in s.log ==> t.log[k].Bare().client == t.log[k].client && t.log[k].Bare().request == t.log[k].request;
  }

  // Exactly when order is kept

  /** Slot k is the last one its client has logged. */
  ghost predicate LastOfClient(log: Log, k: nat)
    requires k in log
  {
    forall j :: j in log && log[j].client == log[k].client ==> j <= k
  }

  /** Executing an operation uncovers the client table exactly when it is really executed
      and its client has logged another one behind it. */
  lemma {:induction false} UncoveredExactly(s: State)
    requires Numbered(s.log, s.op) && Increasing(s.log) && Covers(s) && CanExecute(s)
    ensures Covers(ExecuteOne(s).state) <==>
      AlreadyExecuted(s, s.log[s.lastExecuted + 1]) || LastOfClient(s.log, s.lastExecuted + 1)
  {
    var k := s.lastExecuted + 1;
    var e, t := s.log[k], ExecuteOne(s).state;
    if AlreadyExecuted(s, e) {
      assert forall c :: Lookup(t.clients, c) == Lookup(s.clients, c);
    } else {
      assert Lookup(t.clients, e.client).request == e.request;
      assert forall c :: c != e.client ==> Lookup(t.clients, c) == Lookup(s.clients, c);
      if LastOfClient(s.log, k) {
        forall j | j in s.log && s.log[j].client == e.client ensures s.log[j].request <= e.request {
          assert j < k || j == k;
        }
      } else {
        var j :| j in s.log && s.log[j].client == e.client && j > k;
        assert s.log[j].request > e.request;
        assert t.log[j] == s.log[j];
      }
    }
  }

  /** A request breaks the order of the log exactly when the client table takes it for new
      although the client has already logged it or a later one. */
  lemma {:induction false} OutOfOrderExactly(s: State, inb: Inbound)
    requires Numbered(s.log, s.op) && Increasing(s.log)
    ensures var m := inb.message;
      Increasing(HandleRequest(s, inb).state.log) <==>
        (Lookup(s.clients, m.client).request < m.request ==>
           forall k :: k in s.log && s.log[k].client == m.client ==> s.log[k].request < m.request)
  {
    var m := inb.message;
    if Lookup(s.clients, m.client).request < m.request {
      AppendedIncreasing(s.log, s.op, EntryFor(s.view, m, {s.id}));
    }
  }

  /** A new primary does not bring its client table up to the log it adopts: it logs a
      repetition of an adopted request again exactly when its table does not know it. */
  lemma {:induction false} RepeatedAtNewPrimary(s: State, ms: seq<Message>, inb: Inbound, k: nat)
    requires ms != [] && Numbered(BestOf(ms).body.log, BestOf(ms).op) && Increasing(BestOf(ms).body.log)
    requires var log := BestOf(ms).body.log;
      k in log && log[k].client == inb.message.client && log[k].request == inb.message.request
    ensures Increasing(HandleRequest(BecomePrimary(s, ms), inb).state.log) <==>
      inb.message.request <= Lookup(s.clients, inb.message.client).request
  {
    OutOfOrderExactly(BecomePrimary(s, ms), inb);
  }

  // Runs of a primary in its view

  /** What a primary staying in its view receives: requests and acknowledgements. */
  datatype Event = Asked(inb: Inbound) | Acknowledged(m: Message)

  function React(s: State, event: Event): State {
    match event
    case Asked(inb) => HandleRequest(s, inb).state
    case Acknowledged(m) => HandlePrepareOk(s, m).state
  }

  function After(s: State, events: seq<Event>): State {
    if events == [] then s else React(After(s, events[..|events| - 1]), events[|events| - 1])
  }

  /** Every request in `events` respects the discipline when it arrives. */
  ghost predicate AllDisciplined(s: State, events: seq<Event>) {
    forall k :: 0 <= k < |events| && events[k].Asked? ==> Disciplined(After(s, events[..k]), events[k].inb.message)
  }

  /** At most once: whatever old requests are repeated, in whatever order, each client's
      request numbers in the primary's log stay strictly increasing. */
  lemma {:induction false} AppendedAtMostOnce(s: State, events: seq<Event>)
    requires Orderly(s) && AllDisciplined(s, events)
    ensures Orderly(After(s, events)) && Increasing(After(s, events).log)
  {
    if events != [] {
      var k := |events| - 1;
      forall j | 0 <= j < k && events[..k][j].Asked?
        ensures Disciplined(After(s, events[..k][..j]), events[..k][j].inb.message)
      {
        assert events[..k][..j] == events[..j];
      }
      AppendedAtMostOnce(s, events[..k]);
      var before := After(s, events[..k]);
      match events[k]
      case Asked(inb) => RequestOrderly(before, inb);
      case Acknowledged(m) => PrepareOkOrderly(before, m);
    }
  }

  // Without the discipline

  function RequestFrom(client: U128, request: nat): Event {
    Asked(Inbound(ClientEnd(0), BLANK.(command := Request, client := client, request := request)))
  }

  lemma {:induction false} AfterAppend(s: State, events: seq<Event>, event: Event)
    ensures After(s, events + [event]) == React(After(s, events), event)
  {
    assert (events + [event])[..|events|] == events;
  }

  /** Whatever the client sends is repeated in this run of a primary of three. */
  function Pipelined(client: U128): seq<Event> {
    [RequestFrom(client, 1), RequestFrom(client, 2),
     Acknowledged(BLANK.(command := PrepareOk, op := 1, replica := 1)), RequestFrom(client, 2)]
  }

  /** The discipline is needed: when a client sends its second request before the first is
      executed, executing the first lowers the client's number, and a repetition of the
      second is logged again. */
  lemma {:induction false} PipelinedRequestLoggedTwice(client: U128)
    ensures var s, events := InitialState(0, 3), Pipelined(client);
      && Orderly(s) && !AllDisciplined(s, events) && !Increasing(After(s, events).log)
  {
    var s, events := InitialState(0, 3), Pipelined(client);
    NotIncreasing(client);
    if AllDisciplined(s, events) {
      AppendedAtMostOnce(s, events);
    }
  }

  lemma {:induction false} NotIncreasing(client: U128)
    ensures !Increasing(After(InitialState(0, 3), Pipelined(client)).log)
  {
    var s, events := InitialState(0, 3), Pipelined(client);
    var s2 := TwoLogged(client);
    AfterAppend(s, events[..2], events[2]);
    AfterAppend(s, events[..3], events[3]);
    assert events[..2] + [events[2]] == events[..3] && events[..3] + [events[3]] == events;
    assert events[..2] == [events[0], events[1]];
    LoweredNumber(s2, client);
    LoggedAgain(After(s, events[..3]), client);
  }

  lemma {:induction false} TwoLogged(client: U128) returns (s2: State)
    ensures s2 == After(InitialState(0, 3), [RequestFrom(client, 1), RequestFrom(client, 2)])
    ensures s2.n == 3 && s2.id == 0 && s2.view == 0 && s2.commit == 0 && s2.lastExecuted == 0 && s2.op == 2
    ensures 1 in s2.log && 2 in s2.log && 3 !in s2.log && s2.log[1].acks == {0} && s2.log[2].acks == {0}
    ensures s2.log[1].client == s2.log[2].client == client && s2.log[1].request == 1 && s2.log[2].request == 2
    ensures Lookup(s2.clients, client) == ClientEntry(2, false, [])
  {
    var s, e1, e2 := InitialState(0, 3), RequestFrom(client, 1), RequestFrom(client, 2);
    AfterAppend(s, [], e1);
    AfterAppend(s, [e1], e2);
    assert [] + [e1] == [e1] && [e1] + [e2] == [e1, e2];
    s2 := React(React(s, e1), e2);
  }

  lemma {:induction false} LoggedAgain(s: State, client: U128)
    requires s.op == 2 && 2 in s.log && s.log[2].client == client && s.log[2].request == 2
    requires Lookup(s.clients, client).request == 1
    ensures !Increasing(React(s, RequestFrom(client, 2)).log)
  {
    var t := React(s, RequestFrom(client, 2));
    assert 2 in t.log && 3 in t.log && t.log[2].client == t.log[3].client;
  }

  /** With two requests of a client logged, executing the first lowers its number. */
  lemma {:induction false} LoweredNumber(s: State, client: U128)
    requires s.n == 3 && s.id == 0 && s.view == 0 && s.commit == 0 && s.lastExecuted == 0 && s.op == 2
    requires 1 in s.log && 2 in s.log && 3 !in s.log && s.log[1].acks == {0} && s.log[2].acks == {0}
    requires s.log[1].client == client && s.log[1].request == 1 && Lookup(s.clients, client) == ClientEntry(2, false, [])
    ensures var t := HandlePrepareOk(s, BLANK.(command := PrepareOk, op := 1, replica := 1)).state;
      && Lookup(t.clients, client).request == 1 && t.op == 2 && 2 in t.log && t.log[2] == s.log[2]
  {
    var s' := s.(log := AddAck(s.log, 1, 1));
    assert s'.log[1].acks == {0, 1} && |{0, 1}| == 2 && |{0}| == 1;
    var c := AdvanceCommit(s');
    assert s'.F() == 1 && NextIsAcknowledged(s');
    assert c == AdvanceCommit(s'.(commit := 1));
    assert !NextIsAcknowledged(s'.(commit := 1));
    assert c.commit == 1;
    assert CanExecute(c);
    var t := ExecuteOne(c).state;
    assert !CanExecute(t) && Execute(c).state == Execute(t).state == t;
  }
}
