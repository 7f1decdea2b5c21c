/** What handling each kind of message comes to, field by field: which number is the greatest,
    which log is taken, what is sent and to whom. */
module Laws {
  import opened Types
  import opened Execution
  import opened Handlers

  /** e is: first send `sent`, then execute whatever u lets the replica execute. */
  ghost predicate ThenExecutes(e: Effect, sent: seq<Output>, u: State) {
    ExecutesTo(u, Execute(u)) && e == Effect(Execute(u).state, sent + Execute(u).sent)
  }

  // Choosing among collected messages

  /** Whether the code looks at message j when it chooses: the first always, the others only
      if their payload decodes. */
  predicate Counts(ms: seq<Message>, j: nat) {
    j < |ms| && (j == 0 || ms[j].body.ok)
  }

  /** Message k comes from the latest normal view, has the highest operation number of those
      that do, and is the first such. */
  ghost predicate LatestLog(ms: seq<Message>, k: nat) {
    && Counts(ms, k)
    && (forall j: nat :: Counts(ms, j) ==>
          ms[j].body.lastNormalView < ms[k].body.lastNormalView ||
          (ms[j].body.lastNormalView == ms[k].body.lastNormalView && ms[j].op <= ms[k].op))
    && (forall j: nat :: j < k && Counts(ms, j) ==>
          ms[j].body.lastNormalView < ms[k].body.lastNormalView || ms[j].op < ms[k].op)
  }

  /** `commit` is the highest of a replica's own commit number and those of the messages. */
  ghost predicate HighestCommit(ms: seq<Message>, own: nat, commit: nat) {
    && own <= commit && (forall j: nat :: Counts(ms, j) ==> ms[j].commit <= commit)
    && (commit == own || exists j: nat :: Counts(ms, j) && ms[j].commit == commit)
  }

  lemma {:induction false} BestIsLatest(ms: seq<Message>) returns (k: nat)
    requires ms != []
    ensures LatestLog(ms, k) && BestOf(ms) == ms[k]
  {
    var last := |ms| - 1;
    if last == 0 {
      k := 0;
    } else {
      var before := ms[..last];
      k := BestIsLatest(before);
      LatestGrows(ms, k);
      if Better(ms[last], ms[k]) {
        k := last;
      }
    }
  }

  lemma {:induction false} LatestGrows(ms: seq<Message>, k: nat)
    requires |ms| > 1 && LatestLog(ms[..|ms| - 1], k)
    ensures LatestLog(ms, if Better(ms[|ms| - 1], ms[k]) then |ms| - 1 else k)
  {
    var last := |ms| - 1;
    forall j: nat | j < last ensures Counts(ms, j) <==> Counts(ms[..last], j) {
    }
    forall j: nat | j < last && Counts(ms, j)
      ensures ms[j].body.lastNormalView < ms[k].body.lastNormalView ||
              (ms[j].body.lastNormalView == ms[k].body.lastNormalView && ms[j].op <= ms[k].op)
      ensures j < k ==> ms[j].body.lastNormalView < ms[k].body.lastNormalView || ms[j].op < ms[k].op
    {
      assert Counts(ms[..last], j) && ms[..last][j] == ms[j];
    }
  }

  lemma {:induction false} MaxIsHighest(own: nat, ms: seq<Message>)
    requires ms != []
    ensures HighestCommit(ms, own, MaxCommit(own, ms))
  {
    var last := |ms| - 1;
    if last == 0 {
      assert Counts(ms, 0);
    } else {
      var before := ms[..last];
      MaxIsHighest(own, before);
      forall j: nat | j < last ensures Counts(ms, j) <==> Counts(before, j) {
      }
      assert Counts(ms, last) <==> ms[last].body.ok;
      forall j: nat | Counts(ms, j) ensures ms[j].commit <= MaxCommit(own, ms) {
        assert j < last ==> Counts(before, j) && before[j] == ms[j];
      }
      HighestWitness(own, ms);
    }
  }

  lemma {:induction false} HighestWitness(own: nat, ms: seq<Message>)
    requires |ms| > 1 && HighestCommit(ms[..|ms| - 1], own, MaxCommit(own, ms[..|ms| - 1]))
    ensures MaxCommit(own, ms) == own || exists j: nat :: Counts(ms, j) && ms[j].commit == MaxCommit(own, ms)
  {
    var last := |ms| - 1;
    var before, best := ms[..last], MaxCommit(own, ms[..last]);
    if MaxCommit(own, ms) != best {
      assert Counts(ms, last) && ms[last].commit == MaxCommit(own, ms);
    } else if best != own {
      var j: nat :| Counts(before, j) && before[j].commit == best;
      assert Counts(ms, j) && ms[j].commit == best;
    }
  }

  /** The log as it looks to a receiver. */
  ghost predicate Unacknowledged(log: Log, own: Log) {
    log.Keys == own.Keys && forall k :: k in own ==> log[k] == own[k].(acks := {})
  }

  /** A new primary: with the quorum of DoViewChange messages it adopts the log of the latest
      normal view, the longest of those and the first of equals, and the highest of its own and
      all the collected commit numbers; it announces exactly these and then executes. */
  lemma {:induction false} NewPrimary(s: State, inb: Inbound) returns (k: nat, u: State, log: Log)
    requires inb.message.command == DoViewChange && |s.doViewChanges| + 1 >= (s.n - 1) / 2 + 1
    ensures var ms := s.doViewChanges + [inb.message];
      && LatestLog(ms, k) && HighestCommit(ms, s.commit, u.commit) && Unacknowledged(log, u.log)
      && u == s.(status := Normal, doViewChanges := [], op := ms[k].op, log := ms[k].body.log, commit := u.commit)
      && ThenExecutes(Dispatch(s, inb),
           [Broadcast(Message(StartView, s.view, u.op, u.commit, s.id, ZERO128, 0, 0, [], Body(true, ZERO128, 0, log)))], u)
  {
    var ms := s.doViewChanges + [inb.message];
    k := BestIsLatest(ms);
    MaxIsHighest(s.commit, ms);
    u := BecomePrimary(s, ms);
    log := EraseAcks(u.log);
  }

  /** Short of the quorum the message is only kept. */
  lemma {:induction false} NotYetPrimary(s: State, inb: Inbound)
    requires inb.message.command == DoViewChange && |s.doViewChanges| + 1 < (s.n - 1) / 2 + 1
    ensures Dispatch(s, inb) == Effect(s.(doViewChanges := s.doViewChanges + [inb.message]), [])
  {
  }

  /** Response k has the highest view, the highest operation number of those that do, and is
      the first such. */
  ghost predicate LatestState(ms: seq<Message>, k: nat) {
    && k < |ms|
    && (forall j :: 0 <= j < |ms| ==> ms[j].view < ms[k].view || (ms[j].view == ms[k].view && ms[j].op <= ms[k].op))
    && (forall j :: 0 <= j < k ==> ms[j].view < ms[k].view || ms[j].op < ms[k].op)
  }

  lemma {:induction false} MostRecentIsLatest(ms: seq<Message>) returns (k: nat)
    requires ms != []
    ensures LatestState(ms, k) && MostRecent(ms) == ms[k]
  {
    var last := |ms| - 1;
    if last == 0 {
      k := 0;
    } else {
      k := MostRecentIsLatest(ms[..last]);
      assert forall j :: 0 <= j < last ==> ms[..last][j] == ms[j];
      if MoreRecent(ms[last], ms[k]) {
        k := last;
      }
    }
  }

  // The client table after a log is adopted

  /** `to` is what becomes of the entry `from` of a client whose requests are in the log: its
      number is the highest, and if the log has raised it the client is not marked executed. */
  ghost predicate Raised(from: ClientEntry, to: ClientEntry, log: Log, client: U128) {
    && from.request <= to.request && (forall k :: k in log && log[k].client == client ==> log[k].request <= to.request)
    && to == (if to.request == from.request then from else ClientEntry(to.request, false, from.result))
    && (to.request == from.request || exists k :: k in log && log[k].client == client && log[k].request == to.request)
  }

  predicate Logged(log: Log, client: U128) {
    exists k :: k in log && log[k].client == client
  }

  /** The table of a replica that adopts a log: every client of the log has an entry raised to
      its highest request, and the other entries stay. */
  ghost predicate TableFor(before: ClientTable, log: Log, after: ClientTable) {
    && (forall client :: client in after <==> client in before || Logged(log, client))
    && (forall client :: client in after ==> Raised(Lookup(before, client), after[client], log, client))
  }

  /** The part of a log that has been visited. */
  function Visited(log: Log, keys: seq<nat>): Log {
    map k | k in log && k in keys :: log[k]
  }

  lemma {:induction false} NoteOne(before: ClientTable, table: ClientTable, log: Log, keys: seq<nat>, k: nat)
    requires k in log && k !in keys && TableFor(before, Visited(log, keys), table)
    ensures TableFor(before, Visited(log, keys + [k]), NoteRequest(table, log[k]))
  {
    var e, was, now := log[k], Visited(log, keys), Visited(log, keys + [k]);
    var after := NoteRequest(table, e);
    assert now == was[k := e];
    forall client ensures Logged(now, client) <==> Logged(was, client) || client == e.client {
      LoggedMore(was, k, e, client);
    }
    forall client | client in after ensures Raised(Lookup(before, client), after[client], now, client) {
      if client == e.client {
        RaisedMore(Lookup(before, client), Lookup(table, client), was, k, e);
      } else {
        RaisedElsewhere(Lookup(before, client), table[client], was, k, e, client);
      }
    }
  }

  lemma {:induction false} LoggedMore(was: Log, k: nat, e: LogEntry, client: U128)
    requires k !in was
    ensures Logged(was[k := e], client) <==> Logged(was, client) || client == e.client
  {
    if Logged(was, client) {
      var j :| j in was && was[j].client == client;
      assert j in was[k := e] && was[k := e][j].client == client;
    }
    if client == e.client {
      assert k in was[k := e] && was[k := e][k].client == client;
    }
  }

  lemma {:induction false} RaisedMore(from: ClientEntry, c: ClientEntry, was: Log, k: nat, e: LogEntry)
    requires k !in was && (Raised(from, c, was, e.client) || (c == from && !Logged(was, e.client)))
    ensures Raised(from, if e.request > c.request then c.(request := e.request, executed := false) else c, was[k := e], e.client)
  {
    var now := was[k := e];
    if e.request > c.request {
      assert k in now && now[k].client == e.client && now[k].request == e.request;
    } else if c.request != from.request {
      var j :| j in was && was[j].client == e.client && was[j].request == c.request;
      assert j in now && now[j].client == e.client && now[j].request == c.request;
    }
  }

  lemma {:induction false} RaisedElsewhere(from: ClientEntry, to: ClientEntry, was: Log, k: nat, e: LogEntry, client: U128)
    requires k !in was && client != e.client && Raised(from, to, was, client)
    ensures Raised(from, to, was[k := e], client)
  {
    if to.request != from.request {
      var j :| j in was && was[j].client == client && was[j].request == to.request;
      assert j in was[k := e] && was[k := e][j].client == client;
    }
  }

  lemma {:induction false} NoteLogVisits(before: ClientTable, log: Log, keys: seq<nat>)
    requires forall k :: k in keys ==> k in log
    requires forall a, b :: 0 <= a < b < |keys| ==> keys[a] != keys[b]
    ensures TableFor(before, Visited(log, keys), NoteLog(before, log, keys))
  {
    if keys == [] {
      assert Visited(log, keys) == map[];
      forall client | client in before ensures Raised(Lookup(before, client), before[client], map[], client) {
      }
    } else {
      var last := |keys| - 1;
      NoteLogVisits(before, log, keys[..last]);
      assert keys[last] !in keys[..last];
      NoteOne(before, NoteLog(before, log, keys[..last]), log, keys[..last], keys[last]);
      assert keys[..last] + [keys[last]] == keys;
    }
  }

  lemma {:induction false} NoteLogExactly(before: ClientTable, log: Log)
    ensures TableFor(before, log, NoteLog(before, log, Ascending(log.Keys)))
  {
    NoteLogVisits(before, log, Ascending(log.Keys));
    assert Visited(log, Ascending(log.Keys)) == log;
  }

  // Joining a view, and recovering

  /** ks are the logged operations above `commit` and up to `op`, in order. */
  ghost predicate Between(ks: seq<nat>, log: Log, commit: nat, op: nat) {
    && (forall k :: k in ks <==> k in log && commit < k <= op)
    && (forall a, b :: 0 <= a < b < |ks| ==> ks[a] < ks[b])
  }

  /** oks acknowledge the operations ks to replica `to`, in that order. */
  ghost predicate Acknowledges(oks: seq<Output>, ks: seq<nat>, view: nat, id: nat, to: nat) {
    |oks| == |ks| && forall a :: 0 <= a < |oks| ==>
      oks[a] == Send(PeerEnd(to), Message(PrepareOk, view, ks[a], 0, id, ZERO128, 0, 0, [], NO_BODY))
  }

  lemma {:induction false} OksAcknowledge(s: State, commit: nat, op: nat) returns (ks: seq<nat>)
    ensures Between(ks, s.log, commit, op)
    ensures Acknowledges(RetroactiveOks(s, commit, op), ks, s.view, s.id, s.PrimaryId())
    decreases op
  {
    ks := [];
    if commit < op {
      var before := OksAcknowledge(s, commit, op - 1);
      ks := before + if op in s.log then [op] else [];
      forall k ensures k in ks <==> k in s.log && commit < k <= op {
        assert k in ks <==> k in before || (k == op && op in s.log);
      }
      forall a, b | 0 <= a < b < |ks| ensures ks[a] < ks[b] {
        assert b < |before| || (ks[a] == before[a] && before[a] in before);
      }
    }
  }

  /** u is s in the view that m announces, with its operation and commit numbers and its log,
      and with the client table raised to that log. */
  ghost predicate Joined(s: State, m: Message, u: State) {
    && u == s.(status := Normal, view := m.view, op := m.op, commit := m.commit, log := m.body.log, clients := u.clients)
    && TableFor(s.clients, m.body.log, u.clients)
  }

  lemma {:induction false} AdoptJoins(s: State, m: Message)
    ensures Joined(s, m, AdoptStartView(s, m))
  {
    NoteLogExactly(s.clients, m.body.log);
  }

  /** e is: execute whatever u lets the replica execute, then send `sent`. */
  ghost predicate ExecutesThen(e: Effect, u: State, sent: seq<Output>) {
    ExecutesTo(u, Execute(u)) && e == Effect(Execute(u).state, Execute(u).sent + sent)
  }

  lemma {:induction false} JoinRuns(s: State, inb: Inbound) returns (u: State, t: State)
    requires inb.message.command == StartView && inb.message.body.ok
    ensures Joined(s, inb.message, u) && SameButExecution(u, t)
    ensures ExecutesThen(Dispatch(s, inb), u, RetroactiveOks(t, inb.message.commit, inb.message.op))
  {
    u := AdoptStartView(s, inb.message);
    t := Execute(u).state;
    AdoptJoins(s, inb.message);
  }

  /** A replica joins the view that StartView announces: it adopts what was announced, executes,
      and acknowledges every operation above the announced commit number to the view's primary. */
  lemma {:induction false} JoinsView(s: State, inb: Inbound) returns (u: State, ks: seq<nat>, oks: seq<Output>)
    requires inb.message.command == StartView && inb.message.body.ok
    ensures var m := inb.message;
      && Joined(s, m, u) && ExecutesThen(Dispatch(s, inb), u, oks)
      && Between(ks, m.body.log, m.commit, m.op) && Acknowledges(oks, ks, m.view, s.id, m.view % (2 * ((s.n - 1) / 2) + 1))
  {
    var m, t := inb.message, s;
    u, t := JoinRuns(s, inb);
    oks := RetroactiveOks(t, m.commit, m.op);
    ks := OksAfter(u, t, m.commit, m.op, m.body.log, m.view, s.id, s.n);
  }

  /** A StartView whose payload does not decode is ignored. */
  lemma {:induction false} DamagedStartView(s: State, inb: Inbound)
    requires inb.message.command == StartView && !inb.message.body.ok
    ensures Dispatch(s, inb) == Effect(s, [])
  {
  }

  lemma {:induction false} OksAfter(u: State, t: State, commit: nat, op: nat, log: Log, view: nat, id: nat, n: ClusterSize)
    returns (ks: seq<nat>)
    requires SameButExecution(u, t) && u.log == log && u.view == view && u.id == id && u.n == n
    ensures Between(ks, log, commit, op)
    ensures Acknowledges(RetroactiveOks(t, commit, op), ks, view, id, view % (2 * ((n - 1) / 2) + 1))
  {
    ks := OksAcknowledge(t, commit, op);
    RemainderIsModulo(view, 2 * ((n - 1) / 2) + 1);
  }

  /** A response that does not decode or has another nonce, and one short of the quorum, change
      nothing or are only kept; the one that makes the quorum lets the replica take over the
      view, numbers and log of the latest response, build its client table from that log alone
      and execute from the first operation on. */
  lemma {:induction false} Recovers(s: State, inb: Inbound) returns (k: nat, u: State)
    requires inb.message.command == RecoveryResponse
    ensures var m := inb.message; !m.body.ok || m.body.nonce != s.nonce ==> Dispatch(s, inb) == Effect(s, [])
    ensures var m := inb.message; m.body.ok && m.body.nonce == s.nonce && |s.responses| + 1 < (s.n - 1) / 2 + 1 ==>
      Dispatch(s, inb) == Effect(s.(responses := s.responses + [m]), [])
    ensures var m := inb.message; m.body.ok && m.body.nonce == s.nonce && |s.responses| + 1 >= (s.n - 1) / 2 + 1 ==>
      var ms := s.responses + [m];
      && LatestState(ms, k) && TableFor(map[], ms[k].body.log, u.clients) && ExecutesTo(u, Execute(u))
      && u == s.(status := Normal, view := ms[k].view, op := ms[k].op, commit := ms[k].commit, log := ms[k].body.log,
                 lastExecuted := 0, clients := u.clients)
      && Dispatch(s, inb) ==
           Effect(Execute(u).state.(nonce := ZERO128, responses := []), Execute(u).sent)
  {
    var ms := s.responses + [inb.message];
    k := MostRecentIsLatest(ms);
    u := AdoptResponse(s, ms[k]);
    NoteLogExactly(map[], ms[k].body.log);
  }

  /** A recovery request is never discarded for its view: a normal replica answers it, to the
      replica that asks, with its whole state under the request's nonce. */
  lemma {:induction false} AnswersRecovery(s: State, inb: Inbound) returns (log: Log)
    requires inb.message.command == RecoveryRequest && s.status == Normal && inb.message.body.ok
    ensures !Stale(s, inb.message) && CanProcess(s, inb.message) && Unacknowledged(log, s.log)
    ensures var m := inb.message;
      Dispatch(s, inb) == Effect(s, [Send(PeerEnd(m.replica),
        Message(RecoveryResponse, s.view, s.op, s.commit, s.id, ZERO128, 0, 0, [], Body(true, m.body.nonce, 0, log)))])
  {
    log := EraseAcks(s.log);
  }

  // Normal operation

  predicate Leads(s: State) {
    s.id == s.view % (2 * ((s.n - 1) / 2) + 1)
  }

  lemma {:induction false} LeadsExactly(s: State)
    ensures Leads(s) <==> s.IsPrimary()
  {
    RemainderIsModulo(s.view, 2 * ((s.n - 1) / 2) + 1);
  }

  /** Which messages are discarded and which are handled when they come to the front. */
  lemma {:induction false} AdmittedExactly(s: State, m: Message)
    ensures Stale(s, m) <==> m.view < s.view && m.command !in {Request, RecoveryRequest}
    ensures !Stale(s, m) && CanProcess(s, m) <==>
      match m.command
      case Ping | Pong => m.view >= s.view
      case Request => s.status == Normal && Leads(s)
      case Prepare => s.status == Normal && !Leads(s) && m.view == s.view && m.op == s.op + 1
      case PrepareOk => s.status == Normal && Leads(s) && m.view == s.view
      case Commit => s.status == Normal && !Leads(s) && m.view == s.view
      case StartViewChange => s.status == ViewChange && m.view == s.view
      case DoViewChange => s.status == ViewChange && m.view == s.view && s.id == s.view % s.n
      case StartView => s.status == ViewChange && m.view == s.view && m.replica == s.view % s.n
      case RecoveryRequest => s.status == Normal
      case RecoveryResponse => s.status == Recovery && m.view >= s.view
      case _ => false
  {
    LeadsExactly(s);
    RemainderIsModulo(s.view, s.n);
  }

  /** What a normal replica does about a message that waits: it joins the next view's change,
      recovers when it has fallen behind, and otherwise lets the message wait. */
  lemma {:induction false} StuckExactly(s: State, m: Message)
    ensures StuckAction(s, m) == StartChange <==> m.view == s.view + 1 && m.command in {StartViewChange, DoViewChange}
    ensures StuckAction(s, m) == StartRecovery <==>
      || m.view > s.view + 1 || (m.view == s.view + 1 && m.command !in {StartViewChange, DoViewChange})
      || (m.view == s.view && m.command == Prepare && !Leads(s) && m.op > s.op + 1)
  {
    LeadsExactly(s);
  }

  /** The highest request number the replica knows of a client. */
  function KnownRequest(s: State, client: U128): nat {
    if client in s.clients then s.clients[client].request else 0
  }

  /** A request older than the client's last does nothing; the client's last is answered with
      the result on record and does nothing else. */
  lemma {:induction false} RepeatedRequest(s: State, inb: Inbound)
    requires inb.message.command == Request
    requires inb.message.client in s.clients && inb.message.request <= s.clients[inb.message.client].request
    ensures var m, c := inb.message, s.clients[inb.message.client];
      Dispatch(s, inb) == Effect(s, if m.request < c.request then [] else
        [Send(inb.connection, Message(Reply, 0, 0, 0, 0, m.client, m.request, 0, c.result, NO_BODY))])
  {
    assert s.clients[inb.message.client := s.clients[inb.message.client]] == s.clients;
  }

  /** A new request becomes the next operation, acknowledged by the primary itself; the client's
      entry starts afresh and its connection is remembered; and every backup is asked to prepare
      exactly that operation, with the primary's commit number. */
  lemma {:induction false} NewRequest(s: State, inb: Inbound)
    requires inb.message.command == Request
    requires inb.message.request > KnownRequest(s, inb.message.client)
    ensures var m := inb.message;
      Dispatch(s, inb) == Effect(
        s.(op := s.op + 1, log := s.log[s.op + 1 := LogEntry(s.view, m.opType, m.client, m.request, m.payload, {s.id})],
           clients := s.clients[m.client := ClientEntry(m.request, false, [])],
           connections := s.connections[m.client := inb.connection]),
        [Broadcast(Message(Prepare, s.view, s.op + 1, s.commit, s.id, m.client, m.request, m.opType, m.payload, NO_BODY))])
  {
  }

  /** Request number 0 of an unknown client is answered with nothing, and the client is noted. */
  lemma {:induction false} RequestZero(s: State, inb: Inbound)
    requires inb.message.command == Request
    requires inb.message.client !in s.clients && inb.message.request == 0
    ensures Dispatch(s, inb) == Effect(
      s.(clients := s.clients[inb.message.client := ClientEntry(0, false, [])]),
      [Send(inb.connection, Message(Reply, 0, 0, 0, 0, inb.message.client, 0, 0, [], NO_BODY))])
  {
  }

  /** A backup appends the prepared operation, acknowledges it where it came from, and then
      executes if the prepare brings a higher commit number. */
  lemma {:induction false} Prepares(s: State, inb: Inbound) returns (u: State)
    requires inb.message.command == Prepare
    ensures var m := inb.message;
      && u == s.(op := s.op + 1, log := s.log[s.op + 1 := LogEntry(s.view, m.opType, m.client, m.request, m.payload, {})],
                 clients := s.clients[m.client := ClientEntry(m.request, false, [])],
                 commit := if m.commit > s.commit then m.commit else s.commit)
      && var ok := Send(inb.connection, Message(PrepareOk, s.view, s.op + 1, 0, s.id, ZERO128, 0, 0, [], NO_BODY));
      if m.commit > s.commit then ThenExecutes(Dispatch(s, inb), [ok], u) else Dispatch(s, inb) == Effect(u, [ok])
  {
    u := AppendPrepare(s, inb.message).(commit := if inb.message.commit > s.commit then inb.message.commit else s.commit);
  }

  /** u has moved its commit number from s over all that f+1 replicas have acknowledged. */
  ghost predicate CommitsAcknowledged(s: State, u: State) {
    && u == s.(commit := u.commit) && s.commit <= u.commit
    && (forall k :: s.commit < k <= u.commit ==> k in s.log && |s.log[k].acks| >= (s.n - 1) / 2 + 1)
    && !(u.commit + 1 in s.log && |s.log[u.commit + 1].acks| >= (s.n - 1) / 2 + 1)
  }

  lemma {:induction false} AdvanceCommits(s: State)
    ensures CommitsAcknowledged(s, AdvanceCommit(s))
  {
    assert !NextIsAcknowledged(AdvanceCommit(s));
  }

  lemma {:induction false} OnlyExecutes(u: State)
    ensures ThenExecutes(Execute(u), [], u)
  {
    assert [] + Execute(u).sent == Execute(u).sent;
  }

  /** The primary records an acknowledgement of a logged operation, moves its commit number over
      all that f+1 replicas have acknowledged, without a gap, and executes. */
  lemma {:induction false} CountsAcknowledgement(s: State, inb: Inbound) returns (u: State)
    requires inb.message.command == PrepareOk && Leads(s)
    ensures var m := inb.message;
      if m.op !in s.log then Dispatch(s, inb) == Effect(s, []) else
      var acked := s.(log := s.log[m.op := s.log[m.op].(acks := s.log[m.op].acks + {m.replica})]);
      CommitsAcknowledged(acked, u) && ThenExecutes(Dispatch(s, inb), [], u)
  {
    u := s;
    if inb.message.op in s.log {
      var acked := s.(log := AddAck(s.log, inb.message.op, inb.message.replica));
      u := AdvanceCommit(acked);
      AdvanceCommits(acked);
      LeadsExactly(s);
      AcknowledgedRuns(s, inb, acked);
    }
  }

  lemma {:induction false} AcknowledgedRuns(s: State, inb: Inbound, acked: State)
    requires inb.message.command == PrepareOk && s.IsPrimary() && inb.message.op in s.log
    requires acked == s.(log := AddAck(s.log, inb.message.op, inb.message.replica))
    ensures ThenExecutes(Dispatch(s, inb), [], AdvanceCommit(acked))
  {
    assert Dispatch(s, inb) == AdvancePrimary(acked) == Execute(AdvanceCommit(acked));
    OnlyExecutes(AdvanceCommit(acked));
  }

  /** A backup that hears of a higher commit number takes it and executes; any other it ignores. */
  lemma {:induction false} LearnsCommit(s: State, inb: Inbound)
    requires inb.message.command == Commit
    ensures inb.message.commit <= s.commit ==> Dispatch(s, inb) == Effect(s, [])
    ensures inb.message.commit > s.commit ==> ThenExecutes(Dispatch(s, inb), [], s.(commit := inb.message.commit))
  {
    OnlyExecutes(s.(commit := inb.message.commit));
  }

  /** A ping is answered where it came from, with the replica's view. */
  lemma {:induction false} AnswersPing(s: State, inb: Inbound)
    requires inb.message.command == Ping
    ensures Dispatch(s, inb) == Effect(s, [Send(inb.connection,
      Message(Pong, s.view, 0, 0, s.id, inb.message.client, inb.message.request, 0, [], NO_BODY))])
  {
  }

  /** A normal primary's heartbeat carries its view and commit number to all. */
  lemma {:induction false} Heartbeats(s: State)
    ensures SendCommit(s) == Effect(s, if s.status == Normal && Leads(s)
      then [Broadcast(Message(Commit, s.view, 0, s.commit, 0, ZERO128, 0, 0, [], NO_BODY))] else [])
  {
    LeadsExactly(s);
  }

  // Beginning a view change or a recovery

  /** Leaving a view: the replica enters the next, remembers the last view it was normal in,
      counts its own vote and asks all others to follow. */
  lemma {:induction false} LeavesView(s: State)
    ensures InitiateViewChange(s) == Effect(
      s.(status := ViewChange, view := s.view + 1, startViewChanges := {s.id}, doViewChanges := [],
         lastNormalView := if s.status == Normal then s.view else s.lastNormalView),
      [Broadcast(Message(StartViewChange, s.view + 1, 0, 0, s.id, ZERO128, 0, 0, [], NO_BODY))])
  {
  }

  /** With f+1 votes, its own included, a replica forgets them and reports its state to the new
      primary, or handles that report itself if it is the one; with fewer it counts the vote. */
  lemma {:induction false} Votes(s: State, inb: Inbound) returns (report: Message)
    requires inb.message.command == StartViewChange
    ensures report == Message(DoViewChange, s.view, s.op, s.commit, s.id, ZERO128, 0, 0, [], report.body)
    ensures report.body == Body(true, ZERO128, s.lastNormalView, report.body.log) && Unacknowledged(report.body.log, s.log)
    ensures var m := inb.message;
      Dispatch(s, inb) ==
      if |s.startViewChanges + {m.replica}| < (s.n - 1) / 2 + 1
      then Effect(s.(startViewChanges := s.startViewChanges + {m.replica}), [])
      else if s.id == s.view % s.n then Dispatch(s.(startViewChanges := {}), Inbound(NoConnection, report))
      else Effect(s.(startViewChanges := {}), [Send(PeerEnd(s.view % s.n), report)])
  {
    RemainderIsModulo(s.view, s.n);
    report := DoViewChangeMessage(s.(startViewChanges := {}));
  }

  /** A replica that recovers asks all others under a fresh nonce; one that already does goes on. */
  lemma {:induction false} BeginsRecovery(s: State, nonce: U128)
    ensures InitiateRecovery(s, nonce) == if s.status == Recovery then Effect(s, []) else Effect(
      s.(status := Recovery, nonce := nonce, responses := []),
      [Broadcast(Message(RecoveryRequest, 0, 0, 0, s.id, ZERO128, 0, 0, [], Body(true, nonce, 0, map[])))])
  {
  }
}
