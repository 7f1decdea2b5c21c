/** Each handler keeps its own replica's part of the invariant, extends the history
    accordingly, and sends only messages that the extended history justifies. */
module Preservation {
  import opened Types
  import opened Execution
  import opened Handlers
  import opened Cluster
  import opened Quorums
  import opened History
  import opened Invariant

  /** Whatever peer an output goes to, it is justified by the history. */
  ghost predicate OutputsOk(h: History, i: nat, outs: seq<Output>)
    requires Shaped(h)
  {
    forall o, d: nat :: o in outs && d < h.n && d != i ==> PacketOk(h, Packet(i, d, o.msg))
  }

  /** What every local step establishes. */
  ghost predicate LocalOk(g: History, h: History, i: nat, e: Effect) {
    Grows(g, h, i) && HistoryOk(h) && ReplicaOk(h, e.state, i) && OutputsOk(h, i, e.sent)
  }

  /** A step that leaves view-change bookkeeping and messages alone. */
  ghost predicate QuietStep(g: History, h: History, s: State, i: nat, e: Effect) {
    && LocalOk(g, h, i, e)
    && Quiet(e.sent) && SameChange(s, e.state)
    && h.sent[i] == g.sent[i] && h.used[i] == g.used[i]
  }

  ghost predicate Ready(g: History, s: State, i: nat) {
    HistoryOk(g) && i < g.n && ReplicaOk(g, s, i)
  }

  lemma {:induction false} PrimaryIs(g: History, s: State, i: nat)
    requires s.n == g.n && g.n % 2 == 1 && s.id == i
    ensures s.F() == F(g.n) && 2 * s.F() + 1 == g.n
    ensures s.IsPrimary() <==> i == Primary(g.n, s.view)
  {
    assert 2 * F(g.n) + 1 == g.n;
  }

  lemma {:induction false} GrowsRefl(g: History, i: nat)
    requires Shaped(g) && i < g.n
    ensures Grows(g, g, i)
  {
    forall v | 0 <= v < |g.views| ensures ViewGrows(g, g, i, v) {
    }
  }

  lemma {:induction false} OutputsJoin(h: History, i: nat, a: seq<Output>, b: seq<Output>)
    requires Shaped(h) && OutputsOk(h, i, a) && OutputsOk(h, i, b) && Quiet(a) && Quiet(b)
    ensures OutputsOk(h, i, a + b) && Quiet(a + b)
  {
    assert forall o :: o in a + b ==> o in a || o in b;
  }

  lemma {:induction false} RepliesOk(g: History, i: nat, s: State, e: Effect)
    requires Shaped(g) && i < g.n && ExecutesTo(s, e)
    ensures OutputsOk(g, i, e.sent) && Quiet(e.sent)
  {
  }

  lemma {:induction false} ExecuteOk(g: History, s: State, i: nat, e: Effect)
    requires Shaped(g) && i < g.n && ReplicaOk(g, s, i) && ExecutesTo(s, e)
    ensures ReplicaOk(g, e.state, i)
  {
    var t := e.state;
    if t.lastExecuted > s.lastExecuted {
      assert t.lastExecuted in s.log;
      CommittedLess(g, s.commit, t.lastExecuted, LogView(s), LogView(s));
    }
  }

  /** Learning a commit number and executing up to it. */
  lemma {:induction false} LearnCommitOk(g: History, s: State, i: nat, commit: nat)
    requires Shaped(g) && i < g.n && ReplicaOk(g, s, i) && Committed(g, commit, LogView(s))
    ensures ReplicaOk(g, LearnCommit(s, commit).state, i)
    ensures OutputsOk(g, i, LearnCommit(s, commit).sent) && Quiet(LearnCommit(s, commit).sent)
  {
    if commit > s.commit {
      var s' := s.(commit := commit);
      ExecuteOk(g, s', i, Execute(s'));
      RepliesOk(g, i, s', Execute(s'));
    }
  }

  /** A step that needs no change of the history. */
  lemma {:induction false} QuietHere(g: History, s: State, i: nat, e: Effect)
    requires HistoryOk(g) && i < g.n && ReplicaOk(g, e.state, i) && SameChange(s, e.state)
    requires OutputsOk(g, i, e.sent) && Quiet(e.sent)
    ensures QuietStep(g, g, s, i, e)
  {
    GrowsRefl(g, i);
  }

  // Normal operation

  /** A replica that appends the next entry of its view's log. */
  lemma {:induction false} OneMoreEntry(g: History, h: History, s: State, i: nat, e: LogEntry, s': State)
    requires Shaped(g) && i < g.n && LogOk(g, s, i) && s.status == Normal && Grows(g, h, i)
    requires s'.status == Normal && s'.view == s.view && s'.op == s.op + 1 && s'.log == s.log[s.op + 1 := e]
    requires s.op < |h.views[s.view].log| && h.views[s.view].log[s.op] == e.Bare()
    requires Primary(g.n, s.view) == i ==> |h.views[s.view].log| == s.op + 1
    requires e.acks <= {i} && Acked(h, i, s.view, s.op + 1)
    ensures LogOk(h, s', i)
  {
    var v := s.view;
    AcksGrow(g, h, i, s.log, v);
    assert ViewGrows(g, h, i, v);
    forall k, j | k in s'.log && j in s'.log[k].acks ensures Acked(h, j, v, k) {
      assert k != s.op + 1 ==> j in s.log[k].acks;
    }
  }

  lemma {:induction false} PrepareOut(h: History, i: nat, s: State, m: Message)
    requires Shaped(h) && i < h.n && s.view < |h.views| && 1 <= s.op <= |h.views[s.view].log|
    requires h.views[s.view].log[s.op - 1] == EntryFor(s.view, m, {}) && Committed(h, s.commit, s.view)
    ensures OutputsOk(h, i, [Broadcast(PrepareMessage(s, m))]) && Quiet([Broadcast(PrepareMessage(s, m))])
  {
  }

  lemma {:induction false} PrepareOkOut(h: History, i: nat, to: Endpoint, s: State, k: nat)
    requires Shaped(h) && i < h.n && s.id == i && Acked(h, i, s.view, k)
    ensures OutputsOk(h, i, [Send(to, PrepareOkMessage(s, k))]) && Quiet([Send(to, PrepareOkMessage(s, k))])
  {
  }

  lemma {:induction false} AppendedRequestOk(g: History, s: State, i: nat, inb: Inbound) returns (h: History)
    requires Ready(g, s, i) && CanProcessRequest(s)
    ensures Grows(g, h, i) && HistoryOk(h) && ReplicaOk(h, AppendRequest(s, inb), i)
    ensures LogAppended(g, h, s.view, EntryFor(s.view, inb.message, {}))
    ensures h.sent[i] == g.sent[i] && h.used[i] == g.used[i]
    ensures s.op + 1 == |h.views[s.view].log| && h.views[s.view].log[s.op] == EntryFor(s.view, inb.message, {})
  {
    var m, v := inb.message, s.view;
    PrimaryIs(g, s, i);
    h := Appended(g, i, v, EntryFor(v, m, {}));
    AppendedOk(g, i, v, EntryFor(v, m, {}));
    AppendedReplica(g, h, s, i, inb);
  }

  lemma {:induction false} AppendedReplica(g: History, h: History, s: State, i: nat, inb: Inbound)
    requires Ready(g, s, i) && s.status == Normal && Primary(g.n, s.view) == i && Grows(g, h, i)
    requires h == Appended(g, i, s.view, EntryFor(s.view, inb.message, {}))
    ensures ReplicaOk(h, AppendRequest(s, inb), i)
  {
    OneMoreEntry(g, h, s, i, EntryFor(s.view, inb.message, {i}), AppendRequest(s, inb));
    CommitGrows(g, h, i, s);
    AppendedPlace(g, h, s, i, inb);
    OneMoreCommit(h, s, AppendRequest(s, inb), i);
  }

  lemma {:induction false} AppendedPlace(g: History, h: History, s: State, i: nat, inb: Inbound)
    requires Shaped(g) && i < g.n && PlaceOk(g, s, i) && LogOk(g, s, i) && s.status == Normal && Primary(g.n, s.view) == i
    requires h == Appended(g, i, s.view, EntryFor(s.view, inb.message, {})) && Shaped(h)
    ensures PlaceOk(h, AppendRequest(s, inb), i)
  {
  }

  lemma {:induction false} ClientsDoNotMatter(g: History, s: State, i: nat, clients: ClientTable)
    requires Shaped(g) && i < g.n && ReplicaOk(g, s, i)
    ensures ReplicaOk(g, s.(clients := clients), i)
  {
  }

  lemma {:induction false} ReplyOut(h: History, i: nat, to: Endpoint, m: Message)
    requires Shaped(h) && i < h.n && m.command == Reply
    ensures OutputsOk(h, i, [Send(to, m)]) && Quiet([Send(to, m)])
  {
  }

  lemma {:induction false} OnRequest(g: History, s: State, i: nat, inb: Inbound) returns (h: History)
    requires Ready(g, s, i) && CanProcessRequest(s)
    ensures SameLogs(g, h) || LogAppended(g, h, s.view, EntryFor(s.view, inb.message, {}))
    ensures QuietStep(g, h, s, i, HandleRequest(s, inb))
  {
    var m := inb.message;
    var entry := Lookup(s.clients, m.client);
    if entry.request < m.request {
      h := AppendedRequestOk(g, s, i, inb);
      PrepareOut(h, i, AppendRequest(s, inb), m);
    } else {
      h := g;
      GrowsRefl(g, i);
      ClientsDoNotMatter(g, s, i, s.clients[m.client := entry]);
      ReplyOut(g, i, inb.connection, CachedReply(m, entry.result));
    }
  }

  lemma {:induction false} PreparedHistory(g: History, s: State, i: nat, op: nat) returns (h: History)
    requires Ready(g, s, i) && s.status == Normal && op == s.op + 1 && op <= |g.views[s.view].log|
    ensures h == Reached(g, i, s.view, op) && SameLogs(g, h) && Grows(g, h, i) && HistoryOk(h)
    ensures h.sent[i] == g.sent[i] && h.used[i] == g.used[i] && Acked(h, i, s.view, op)
  {
    assert ReachOk(g, i, s.view);
    h := Reached(g, i, s.view, op);
    ReachedOk(g, i, s.view, op);
  }

  lemma {:induction false} PreparedPlace(g: History, h: History, s: State, i: nat, m: Message)
    requires Shaped(g) && i < g.n && PlaceOk(g, s, i) && s.status == Normal && s.view < |g.views|
    requires h == Reached(g, i, s.view, s.op + 1) && Shaped(h)
    ensures PlaceOk(h, AppendPrepare(s, m), i)
  {
  }

  lemma {:induction false} PreparedOk(g: History, s: State, i: nat, m: Message, p: Packet) returns (h: History)
    requires Ready(g, s, i) && CanProcessPrepare(s, m)
    requires PacketOk(g, p) && p.msg == m && m.command == Prepare
    ensures SameLogs(g, h) && Grows(g, h, i) && HistoryOk(h) && ReplicaOk(h, AppendPrepare(s, m), i)
    ensures h.sent[i] == g.sent[i] && h.used[i] == g.used[i]
    ensures Committed(h, m.commit, s.view) && Acked(h, i, s.view, m.op)
  {
    PrimaryIs(g, s, i);
    h := PreparedHistory(g, s, i, m.op);
    PreparedReplica(g, h, s, i, m);
    GrowsExtends(g, h, i);
    CommittedGrows(g, h, m.commit, s.view);
  }

  lemma {:induction false} PreparedReplica(g: History, h: History, s: State, i: nat, m: Message)
    requires Shaped(g) && i < g.n && PlaceOk(g, s, i) && LogOk(g, s, i) && CommitOk(g, s)
    requires s.status == Normal && Primary(g.n, s.view) != i && m.op == s.op + 1 && Grows(g, h, i)
    requires h == Reached(g, i, s.view, m.op) && m.op <= |h.views[s.view].log| && h.views[s.view].log[s.op] == EntryFor(s.view, m, {})
    requires Acked(h, i, s.view, m.op)
    ensures ReplicaOk(h, AppendPrepare(s, m), i)
  {
    PreparedPlace(g, h, s, i, m);
    OneMoreEntry(g, h, s, i, EntryFor(s.view, m, {}), AppendPrepare(s, m));
    CommitGrows(g, h, i, s);
    OneMoreCommit(h, s, AppendPrepare(s, m), i);
  }

  /** The parts of a normal replica that has taken on one more entry. */
  lemma {:induction false} OneMoreCommit(h: History, s: State, t: State, i: nat)
    requires Shaped(h) && i < h.n && CommitOk(h, s) && s.status == Normal && PlaceOk(h, t, i) && LogOk(h, t, i)
    requires t.status == Normal && t.view == s.view && t.op == s.op + 1 && t.commit == s.commit && t.lastExecuted == s.lastExecuted
    ensures ReplicaOk(h, t, i)
  {
  }

  lemma {:induction false} OnPrepare(g: History, s: State, i: nat, inb: Inbound, p: Packet) returns (h: History)
    requires Ready(g, s, i) && CanProcessPrepare(s, inb.message)
    requires PacketOk(g, p) && p.msg == inb.message && p.msg.command == Prepare
    ensures SameLogs(g, h) && QuietStep(g, h, s, i, HandlePrepare(s, inb))
  {
    var m := inb.message;
    h := PreparedOk(g, s, i, m, p);
    var s' := AppendPrepare(s, m);
    LearnCommitOk(h, s', i, m.commit);
    PrepareOkOut(h, i, inb.connection, s', s'.op);
    OutputsJoin(h, i, [Send(inb.connection, PrepareOkMessage(s', s'.op))], LearnCommit(s', m.commit).sent);
  }

  lemma {:induction false} AdvanceOk(g: History, s: State, i: nat)
    requires Ready(g, s, i) && s.status == Normal
    ensures ReplicaOk(g, AdvanceCommit(s), i)
  {
    var t := AdvanceCommit(s);
    if t.commit > s.commit {
      var k := t.commit;
      forall j | j in s.log[k].acks ensures j in Holders(g, s.view, k) {
        assert Acked(g, j, s.view, k);
      }
      SubsetSize(s.log[k].acks, Holders(g, s.view, k));
      PrimaryIs(g, s, i);
      assert Chosen(g, s.view, k);
    }
  }

  lemma {:induction false} AckAdded(g: History, s: State, i: nat, m: Message)
    requires Shaped(g) && i < g.n && LogOk(g, s, i) && s.status == Normal && m.op in s.log
    requires Acked(g, m.replica, s.view, m.op)
    ensures LogOk(g, s.(log := AddAck(s.log, m.op, m.replica)), i)
  {
    var log := AddAck(s.log, m.op, m.replica);
    forall k, j | k in log && j in log[k].acks ensures Acked(g, j, s.view, k) {
      assert j in s.log[k].acks || (k == m.op && j == m.replica);
    }
  }

  /** The primary commits and executes what is acknowledged. */
  lemma {:induction false} OnAdvance(g: History, s: State, i: nat)
    requires Ready(g, s, i) && s.status == Normal && s.IsPrimary()
    ensures ReplicaOk(g, AdvancePrimary(s).state, i) && AdvancePrimary(s).state.status == Normal
    ensures OutputsOk(g, i, AdvancePrimary(s).sent) && Quiet(AdvancePrimary(s).sent)
  {
    var t := AdvanceCommit(s);
    AdvanceOk(g, s, i);
    ExecuteOk(g, t, i, Execute(t));
    RepliesOk(g, i, t, Execute(t));
  }

  lemma {:induction false} AckedReplicaOk(g: History, s: State, i: nat, m: Message)
    requires Ready(g, s, i) && s.status == Normal && m.op in s.log && Acked(g, m.replica, s.view, m.op)
    ensures ReplicaOk(g, s.(log := AddAck(s.log, m.op, m.replica)), i)
  {
    AckAdded(g, s, i, m);
  }

  lemma {:induction false} OnPrepareOk(g: History, s: State, i: nat, m: Message)
    requires Ready(g, s, i) && CanProcessPrepareOk(s, m) && Acked(g, m.replica, m.view, m.op)
    ensures QuietStep(g, g, s, i, HandlePrepareOk(s, m))
  {
    PrepareOkEffect(g, s, i, m);
    QuietHere(g, s, i, HandlePrepareOk(s, m));
  }

  lemma {:induction false} PrepareOkEffect(g: History, s: State, i: nat, m: Message)
    requires Ready(g, s, i) && CanProcessPrepareOk(s, m) && Acked(g, m.replica, m.view, m.op)
    ensures var e := HandlePrepareOk(s, m);
      e.state.status == Normal && ReplicaOk(g, e.state, i) && OutputsOk(g, i, e.sent) && Quiet(e.sent)
  {
    if m.op in s.log {
      AckedReplicaOk(g, s, i, m);
      OnAdvance(g, s.(log := AddAck(s.log, m.op, m.replica)), i);
    }
  }

  lemma {:induction false} OnCommit(g: History, s: State, i: nat, m: Message)
    requires Ready(g, s, i) && CanProcessCommit(s, m) && Committed(g, m.commit, m.view)
    ensures QuietStep(g, g, s, i, HandleCommit(s, m))
  {
    LearnCommitOk(g, s, i, m.commit);
    QuietHere(g, s, i, HandleCommit(s, m));
  }

  lemma {:induction false} OnHeartbeat(g: History, s: State, i: nat)
    requires Ready(g, s, i)
    ensures QuietStep(g, g, s, i, SendCommit(s))
  {
    CommitOut(g, s, i);
    QuietHere(g, s, i, SendCommit(s));
  }

  lemma {:induction false} CommitOut(g: History, s: State, i: nat)
    requires Ready(g, s, i)
    ensures OutputsOk(g, i, SendCommit(s).sent) && Quiet(SendCommit(s).sent)
  {
  }

  // View changes

  lemma {:induction false} ViewLeftLog(g: History, h: History, s: State, i: nat)
    requires Grows(g, h, i) && h.views == g.views && LogOk(g, s, i) && CommitOk(g, s) && s.status == Normal
    ensures LogOk(h, EnterNewView(s, s.view + 1), i) && CommitOk(h, EnterNewView(s, s.view + 1))
  {
    CommitGrows(g, h, i, s);
    AcksGrow(g, h, i, s.log, s.view);
  }

  lemma {:induction false} FreshChange(h: History, s: State, i: nat)
    requires Shaped(h) && i < h.n && s.status == ViewChange && s.view == s.lastNormalView + 1
    requires s.startViewChanges == {i} && s.doViewChanges == [] && h.cur[i] == s.view && s.view !in h.sent[i]
    ensures PendingOk(h, s, i)
  {
    assert |s.startViewChanges| == 1;
  }

  lemma {:induction false} ViewLeft(g: History, s: State, i: nat) returns (h: History)
    requires Ready(g, s, i) && s.status == Normal
    ensures h == Entered(g, i, s.view + 1) && HistoryOk(h) && Grows(g, h, i)
    ensures ReplicaOk(h, EnterNewView(s, s.view + 1), i)
  {
    h := Entered(g, i, s.view + 1);
    EnteredOk(g, i, s.view + 1);
    ViewLeftLog(g, h, s, i);
    ViewLeftPlace(g, h, s, i);
    FreshChange(h, EnterNewView(s, s.view + 1), i);
  }

  lemma {:induction false} ViewLeftPlace(g: History, h: History, s: State, i: nat)
    requires Shaped(g) && i < g.n && PlaceOk(g, s, i) && s.status == Normal && h == Entered(g, i, s.view + 1) && Shaped(h)
    ensures PlaceOk(h, EnterNewView(s, s.view + 1), i) && s.view + 1 !in h.sent[i]
  {
  }

  lemma {:induction false} StartViewChangeOut(h: History, i: nat, s: State)
    requires Shaped(h) && i < h.n && s.id == i && s.view <= h.cur[i]
    ensures OutputsOk(h, i, [Broadcast(StartViewChangeMessage(s))])
  {
  }

  lemma {:induction false} OnLeaveView(g: History, s: State, i: nat) returns (h: History)
    requires Ready(g, s, i) && s.status == Normal
    ensures LocalOk(g, h, i, InitiateViewChange(s)) && h == Entered(g, i, s.view + 1)
  {
    h := ViewLeft(g, s, i);
    StartViewChangeOut(h, i, EnterNewView(s, s.view + 1));
  }

  /** A replica's own DoViewChange says what the history says of it. */
  lemma {:induction false} OwnDoViewChange(g: History, s: State, i: nat)
    requires Shaped(g) && i < g.n && ReplicaOk(g, s, i) && s.status == ViewChange && s.view in g.sent[i]
    ensures DoViewChangeOk(g, DoViewChangeMessage(s))
  {
  }

  lemma {:induction false} BestIsLongest(ms: seq<Message>, v: nat, a: nat)
    requires a < |ms| && forall b :: 0 <= b < |ms| ==> ms[b].body.ok && ms[b].body.lastNormalView == v
    ensures BestOf(ms) in ms && ms[a].op <= BestOf(ms).op
  {
    var k := |ms| - 1;
    if k > 0 {
      BestIsLongest(ms[..k], v, if a < k then a else 0);
    }
  }

  lemma {:induction false} MaxCommitCommitted(g: History, own: nat, ms: seq<Message>, v: nat)
    requires Shaped(g) && ms != [] && Committed(g, own, v)
    requires forall a :: 0 <= a < |ms| ==> Committed(g, ms[a].commit, v)
    ensures Committed(g, MaxCommit(own, ms), v)
  {
    var k := |ms| - 1;
    if k > 0 {
      MaxCommitCommitted(g, own, ms[..k], v);
    }
  }

  function Senders(ms: seq<Message>): set<nat> {
    set a | 0 <= a < |ms| :: ms[a].replica
  }

  lemma {:induction false} DistinctSenders(ms: seq<Message>)
    requires forall a, b :: 0 <= a < b < |ms| ==> ms[a].replica != ms[b].replica
    ensures |Senders(ms)| == |ms|
  {
    if ms != [] {
      var k := |ms| - 1;
      DistinctSenders(ms[..k]);
      assert Senders(ms) == Senders(ms[..k]) + {ms[k].replica};
    }
  }

  /** A full set of DoViewChange messages for the view that replica i waits to lead. */
  ghost predicate FullSet(g: History, s: State, i: nat, ms: seq<Message>)
    requires Shaped(g)
  {
    && s.status == ViewChange && s.view == s.lastNormalView + 1 && Primary(g.n, s.view) == i
    && |ms| >= F(g.n) + 1
    && (forall a :: 0 <= a < |ms| ==> ms[a].view == s.view && DoViewChangeOk(g, ms[a]))
    && (forall a, b :: 0 <= a < b < |ms| ==> ms[a].replica != ms[b].replica)
  }

  /** A view is activated only once: the view that follows is still to come. */
  lemma {:induction false} NextView(g: History, s: State, i: nat, ms: seq<Message>)
    requires Ready(g, s, i) && FullSet(g, s, i, ms)
    ensures |g.views| == s.view
  {
    assert DoViewChangeOk(g, ms[0]);
    assert s.view < |g.views| ==> ViewOk(g, s.view);
  }

  lemma {:induction false} BestFits(g: History, s: State, i: nat, ms: seq<Message>)
    requires Shaped(g) && FullSet(g, s, i, ms) && |g.views| == s.view
    ensures BestOf(ms) in ms && DoViewChangeOk(g, BestOf(ms))
    ensures forall j :: j in Senders(ms) ==>
      j < g.n && s.view - 1 in g.reach[j] && g.reach[j][s.view - 1] <= BestOf(ms).op && s.view <= g.cur[j]
  {
    BestIsLongest(ms, s.view - 1, 0);
    forall j | j in Senders(ms)
      ensures j < g.n && s.view - 1 in g.reach[j] && g.reach[j][s.view - 1] <= BestOf(ms).op && s.view <= g.cur[j]
    {
      var a :| 0 <= a < |ms| && ms[a].replica == j;
      BestIsLongest(ms, s.view - 1, a);
      assert DoViewChangeOk(g, ms[a]);
    }
  }

  lemma {:induction false} BestAboveStart(g: History, s: State, i: nat, ms: seq<Message>)
    requires HistoryOk(g) && FullSet(g, s, i, ms) && |g.views| == s.view
    ensures g.views[s.view - 1].start <= BestOf(ms).op
  {
    BestFits(g, s, i, ms);
    var j := ms[0].replica;
    assert j in Senders(ms);
    assert ReachOk(g, j, s.view - 1);
  }

  lemma {:induction false} ActivatedHistory(g: History, i: nat, start: nat, quorum: set<nat>) returns (h: History)
    requires HistoryOk(g) && i < g.n && Primary(g.n, |g.views|) == i && g.cur[i] == |g.views|
    requires g.views[|g.views| - 1].start <= start <= |g.views[|g.views| - 1].log|
    requires Within(quorum, g.n) && |quorum| >= F(g.n) + 1
    requires forall j :: j in quorum ==>
      |g.views| - 1 in g.reach[j] && g.reach[j][|g.views| - 1] <= start && |g.views| <= g.cur[j]
    ensures h == Activated(g, i, start, quorum) && HistoryOk(h) && Grows(g, h, i) && SameLogs(g, h)
    ensures h.sent == g.sent && h.used == g.used && |g.views| < |h.views| && h.views[|g.views|].start == start
  {
    h := Activated(g, i, start, quorum);
    ActivatedOk(g, i, start, quorum);
    ActivatedLogs(g, i, start, quorum);
  }

  lemma {:induction false} BestWithin(g: History, s: State, i: nat, ms: seq<Message>)
    requires Shaped(g) && FullSet(g, s, i, ms) && |g.views| == s.view
    ensures BestOf(ms).op <= |g.views[s.view - 1].log|
  {
    BestFits(g, s, i, ms);
  }

  /** The senders are a quorum that has left the last view with no more than the best log. */
  lemma {:induction false} SendersQuorum(g: History, s: State, i: nat, ms: seq<Message>)
    requires Shaped(g) && FullSet(g, s, i, ms) && |g.views| == s.view
    ensures Within(Senders(ms), g.n) && |Senders(ms)| >= F(g.n) + 1
    ensures forall j :: j in Senders(ms) ==>
      s.view - 1 in g.reach[j] && g.reach[j][s.view - 1] <= BestOf(ms).op && s.view <= g.cur[j]
  {
    BestFits(g, s, i, ms);
    DistinctSenders(ms);
  }

  lemma {:induction false} CommitsGrow(g: History, h: History, s: State, i: nat, ms: seq<Message>)
    requires Shaped(g) && FullSet(g, s, i, ms) && Grows(g, h, i)
    ensures forall a :: 0 <= a < |ms| ==> Committed(h, ms[a].commit, s.view - 1)
  {
    forall a | 0 <= a < |ms| ensures Committed(h, ms[a].commit, s.view - 1) {
      DoViewChangeGrows(g, h, i, ms[a]);
    }
  }

  lemma {:induction false} NextViewCommit(h: History, commit: nat, executed: nat, v: nat)
    requires HistoryOk(h) && 0 < v < |h.views| && Committed(h, commit, v - 1) && Committed(h, executed, v - 1)
    ensures Committed(h, commit, v) && Committed(h, executed, v) && executed <= h.views[v].start
  {
    CommittedLess(h, commit, commit, v - 1, v);
    CommittedLess(h, executed, executed, v - 1, v);
    CommittedAgree(h, executed, v - 1, v);
  }

  lemma {:induction false} NewPrimaryCommit(h: History, s: State, ms: seq<Message>)
    requires HistoryOk(h) && CommitOk(h, s) && s.status == ViewChange && s.view == s.lastNormalView + 1 && ms != []
    requires forall a :: 0 <= a < |ms| ==> Committed(h, ms[a].commit, s.view - 1)
    requires s.view < |h.views| && h.views[s.view].start == BestOf(ms).op
    ensures CommitOk(h, BecomePrimary(s, ms))
  {
    MaxCommitCommitted(h, s.commit, ms, s.view - 1);
    NextViewCommit(h, MaxCommit(s.commit, ms), s.lastExecuted, s.view);
  }

  lemma {:induction false} BestHolds(g: History, s: State, i: nat, ms: seq<Message>)
    requires Shaped(g) && FullSet(g, s, i, ms) && |g.views| == s.view
    ensures HoldsPrefix(BestOf(ms).body.log, BestOf(ms).op, g.views[s.view - 1].log) && NoAcks(BestOf(ms).body.log)
  {
    BestFits(g, s, i, ms);
  }

  lemma {:induction false} NewPrimaryLog(g: History, h: History, s: State, i: nat, ms: seq<Message>)
    requires Shaped(g) && i < g.n && ms != [] && 0 < s.view == |g.views|
    requires HoldsPrefix(BestOf(ms).body.log, BestOf(ms).op, g.views[s.view - 1].log) && NoAcks(BestOf(ms).body.log)
    requires h == Activated(g, i, BestOf(ms).op, Senders(ms)) && Shaped(h)
    ensures LogOk(h, BecomePrimary(s, ms), i)
  {
    PrefixHeld(BestOf(ms).body.log, BestOf(ms).op, g.views[s.view - 1].log);
    HoldsWholeLog(h, BecomePrimary(s, ms), i);
  }

  lemma {:induction false} PrefixHeld(log: Log, op: nat, l: seq<LogEntry>)
    requires HoldsPrefix(log, op, l)
    ensures HoldsPrefix(log, op, l[..op])
  {
  }

  lemma {:induction false} HoldsWholeLog(h: History, s: State, i: nat)
    requires Shaped(h) && s.status == Normal && s.view < |h.views| && NoAcks(s.log)
    requires HoldsPrefix(s.log, s.op, h.views[s.view].log) && s.op == |h.views[s.view].log|
    ensures LogOk(h, s, i)
  {
  }

  lemma {:induction false} NewPrimaryPlace(g: History, h: History, s: State, i: nat, ms: seq<Message>)
    requires Shaped(g) && i < g.n && PlaceOk(g, s, i) && FullSet(g, s, i, ms) && |g.views| == s.view
    requires BestOf(ms).op <= |g.views[s.view - 1].log|
    requires h == Activated(g, i, BestOf(ms).op, Senders(ms)) && Shaped(h)
    ensures PlaceOk(h, BecomePrimary(s, ms), i)
  {
  }

  lemma {:induction false} NewPrimaryOk(g: History, h: History, s: State, i: nat, ms: seq<Message>)
    requires Ready(g, s, i) && FullSet(g, s, i, ms) && |g.views| == s.view
    requires BestOf(ms).op <= |g.views[s.view - 1].log|
    requires h == Activated(g, i, BestOf(ms).op, Senders(ms)) && HistoryOk(h) && Grows(g, h, i)
    requires h.views[s.view].start == BestOf(ms).op
    ensures ReplicaOk(h, BecomePrimary(s, ms), i)
  {
    CommitGrows(g, h, i, s);
    CommitsGrow(g, h, s, i, ms);
    NewPrimaryCommit(h, s, ms);
    BestHolds(g, s, i, ms);
    NewPrimaryLog(g, h, s, i, ms);
    NewPrimaryPlace(g, h, s, i, ms);
  }

  lemma {:induction false} BecomePrimaryOk(g: History, s: State, i: nat, ms: seq<Message>) returns (h: History)
    requires Ready(g, s, i) && FullSet(g, s, i, ms)
    ensures SameLogs(g, h) && HistoryOk(h) && Grows(g, h, i) && ReplicaOk(h, BecomePrimary(s, ms), i)
    ensures h.sent == g.sent && h.used == g.used && h.views[s.view].start == BestOf(ms).op
  {
    NextView(g, s, i, ms);
    h := ActivationHere(g, s, i, ms);
    NewPrimaryOk(g, h, s, i, ms);
  }

  lemma {:induction false} ActivationHere(g: History, s: State, i: nat, ms: seq<Message>) returns (h: History)
    requires HistoryOk(g) && i < g.n && g.cur[i] == s.view && FullSet(g, s, i, ms) && |g.views| == s.view
    ensures BestOf(ms).op <= |g.views[s.view - 1].log|
    ensures h == Activated(g, i, BestOf(ms).op, Senders(ms)) && HistoryOk(h) && Grows(g, h, i)
    ensures SameLogs(g, h) && h.sent == g.sent && h.used == g.used
    ensures s.view < |h.views| && h.views[s.view].start == BestOf(ms).op
  {
    BestWithin(g, s, i, ms);
    SendersQuorum(g, s, i, ms);
    BestAboveStart(g, s, i, ms);
    h := ActivatedHistory(g, i, BestOf(ms).op, Senders(ms));
  }

  lemma {:induction false} StartViewOut(h: History, i: nat, s: State)
    requires HistoryOk(h) && i < h.n && ReplicaOk(h, s, i) && s.status == Normal && s.op == h.views[s.view].start
    ensures OutputsOk(h, i, [Broadcast(StartViewMessage(s))]) && Quiet([Broadcast(StartViewMessage(s))])
  {
    assert ReachOk(h, i, s.view);
    assert LogMessageOk(h, StartViewMessage(s));
  }

  /** The message that completes the set makes the replica primary of its view. */
  lemma {:induction false} OnLastDoViewChange(g: History, s: State, i: nat, m: Message) returns (h: History)
    requires Ready(g, s, i) && FullSet(g, s, i, s.doViewChanges + [m])
    ensures SameLogs(g, h) && LocalOk(g, h, i, HandleDoViewChange(s, m))
    ensures Quiet(HandleDoViewChange(s, m).sent) && HandleDoViewChange(s, m).state.status == Normal
    ensures h.sent == g.sent && h.used == g.used
  {
    PrimaryIs(g, s, i);
    h := OnFullSet(g, s, i, s.doViewChanges + [m], HandleDoViewChange(s, m));
  }

  lemma {:induction false} OnFullSet(g: History, s: State, i: nat, ms: seq<Message>, e: Effect) returns (h: History)
    requires Ready(g, s, i) && FullSet(g, s, i, ms)
    requires var s' := BecomePrimary(s, ms); e == Effect(Execute(s').state, [Broadcast(StartViewMessage(s'))] + Execute(s').sent)
    ensures SameLogs(g, h) && LocalOk(g, h, i, e) && Quiet(e.sent) && e.state.status == Normal
    ensures h.sent == g.sent && h.used == g.used
  {
    var s' := BecomePrimary(s, ms);
    h := BecomePrimaryOk(g, s, i, ms);
    NewPrimaryRuns(h, s', i, Execute(s'));
  }

  lemma {:induction false} NewPrimaryRuns(h: History, s: State, i: nat, e: Effect)
    requires HistoryOk(h) && i < h.n && ReplicaOk(h, s, i) && s.status == Normal && s.op == h.views[s.view].start
    requires ExecutesTo(s, e)
    ensures ReplicaOk(h, e.state, i) && e.state.status == Normal
    ensures OutputsOk(h, i, [Broadcast(StartViewMessage(s))] + e.sent) && Quiet([Broadcast(StartViewMessage(s))] + e.sent)
  {
    StartViewOut(h, i, s);
    ExecuteOk(h, s, i, e);
    RepliesOk(h, i, s, e);
    OutputsJoin(h, i, [Broadcast(StartViewMessage(s))], e.sent);
  }

  lemma {:induction false} StartViewAdopted(g: History, s: State, i: nat, m: Message) returns (h: History)
    requires Ready(g, s, i) && CanProcessStartView(s, m) && LogMessageOk(g, m)
    ensures SameLogs(g, h) && HistoryOk(h) && Grows(g, h, i) && ReplicaOk(h, AdoptStartView(s, m), i)
    ensures h.sent == g.sent && h.used == g.used
  {
    var v, s' := s.view, AdoptStartView(s, m);
    h := Reached(g, i, v, m.op);
    assert ViewOk(g, v);
    ReachedOk(g, i, v, m.op);
    LogMessageGrows(g, h, i, m);
    CommitGrows(g, h, i, s);
    CommittedAgree(h, s.lastExecuted, v - 1, v);
    CommittedLess(h, s.lastExecuted, s.lastExecuted, v - 1, v);
    assert LogOk(h, s', i);
  }

  lemma {:induction false} RetroactiveOksOut(h: History, i: nat, s: State, lo: nat)
    requires Shaped(h) && i < h.n && ReplicaOk(h, s, i) && s.status == Normal
    ensures OutputsOk(h, i, RetroactiveOks(s, lo, s.op)) && Quiet(RetroactiveOks(s, lo, s.op))
  {
    forall o, d: nat | o in RetroactiveOks(s, lo, s.op) && d < h.n && d != i
      ensures PacketOk(h, Packet(i, d, o.msg))
    {
      var k :| lo < k <= s.op && o == Send(PeerEnd(s.PrimaryId()), PrepareOkMessage(s, k));
      assert Acked(h, i, s.view, k);
    }
  }

  lemma {:induction false} OnStartView(g: History, s: State, i: nat, m: Message) returns (h: History)
    requires Ready(g, s, i) && CanProcessStartView(s, m) && LogMessageOk(g, m)
    ensures SameLogs(g, h) && QuietStep(g, h, s, i, HandleStartView(s, m))
  {
    var s' := AdoptStartView(s, m);
    h := StartViewAdopted(g, s, i, m);
    var e := Execute(s');
    ExecuteOk(h, s', i, e);
    RepliesOk(h, i, s', e);
    RetroactiveOksOut(h, i, e.state, m.commit);
    OutputsJoin(h, i, e.sent, RetroactiveOks(e.state, m.commit, m.op));
  }

  // Recovery

  lemma {:induction false} OnRecover(g: History, s: State, i: nat, nonce: U128)
    requires Ready(g, s, i) && s.status == Normal
    ensures QuietStep(g, g, s, i, InitiateRecovery(s, nonce))
  {
    var e := InitiateRecovery(s, nonce);
    assert ReplicaOk(g, e.state, i);
    RecoveryRequestOut(g, e.state, i);
    QuietHere(g, s, i, e);
  }

  lemma {:induction false} RecoveryRequestOut(g: History, s: State, i: nat)
    requires Shaped(g) && i < g.n && s.id == i
    ensures OutputsOk(g, i, [Broadcast(RecoveryRequestMessage(s))]) && Quiet([Broadcast(RecoveryRequestMessage(s))])
  {
  }

  lemma {:induction false} ResponseOut(g: History, s: State, i: nat, to: Endpoint, nonce: U128)
    requires Ready(g, s, i) && s.status == Normal
    ensures OutputsOk(g, i, [Send(to, RecoveryResponseMessage(s, nonce))]) && Quiet([Send(to, RecoveryResponseMessage(s, nonce))])
  {
    assert ReachOk(g, i, s.view);
    assert LogMessageOk(g, RecoveryResponseMessage(s, nonce));
  }

  lemma {:induction false} OnRecoveryRequest(g: History, s: State, i: nat, m: Message)
    requires Ready(g, s, i) && CanProcessRecoveryRequest(s)
    ensures QuietStep(g, g, s, i, HandleRecoveryRequest(s, m))
  {
    ResponseOut(g, s, i, PeerEnd(m.replica), m.body.nonce);
    QuietHere(g, s, i, HandleRecoveryRequest(s, m));
  }

  lemma {:induction false} MostRecentIsOne(ms: seq<Message>)
    requires ms != []
    ensures MostRecent(ms) in ms
    ensures forall a :: 0 <= a < |ms| ==> !MoreRecent(ms[a], MostRecent(ms))
  {
    var k := |ms| - 1;
    if k > 0 {
      MostRecentIsOne(ms[..k]);
      assert forall a :: 0 <= a < k ==> ms[a] == ms[..k][a];
    }
  }

  lemma {:induction false} AdoptedHistory(g: History, s: State, i: nat, v: nat, op: nat) returns (h: History)
    requires Ready(g, s, i) && s.status == Recovery && s.view <= v < |g.views| && (v > s.view || op >= s.op)
    requires g.views[v].start <= op <= |g.views[v].log|
    ensures h == Reached(g, i, v, op) && SameLogs(g, h) && HistoryOk(h) && Grows(g, h, i)
    ensures h.sent == g.sent && h.used == g.used
  {
    h := Reached(g, i, v, op);
    assert ViewOk(g, v);
    ReachedOk(g, i, v, op);
  }

  /** A primary that recovers in its own view comes back with all of the view's log. */
  lemma {:induction false} PrimaryAdoptsAll(g: History, s: State, i: nat, v: nat, op: nat)
    requires Ready(g, s, i) && s.status == Recovery && s.view <= v < |g.views| && (v > s.view || op >= s.op)
    requires op <= |g.views[v].log|
    ensures Primary(g.n, v) == i ==> op == |g.views[v].log|
  {
    assert ViewOk(g, v);
  }

  /** A replica that holds the log of a message. */
  lemma {:induction false} HoldsMessageLog(h: History, s: State, i: nat, m: Message)
    requires Shaped(h) && LogMessageOk(h, m) && s.status == Normal && s.view == m.view && s.op == m.op && s.log == m.body.log
    requires Primary(h.n, m.view) == i ==> m.op == |h.views[m.view].log|
    ensures LogOk(h, s, i)
  {
  }

  lemma {:induction false} AdoptedPlace(g: History, h: History, s: State, i: nat, best: Message)
    requires Shaped(g) && i < g.n && PlaceOk(g, s, i) && s.status == Recovery && s.view <= best.view < |g.views|
    requires h == Reached(g, i, best.view, best.op) && Shaped(h)
    ensures PlaceOk(h, AdoptResponse(s, best), i)
  {
  }

  lemma {:induction false} ResponseAdopted(g: History, s: State, i: nat, best: Message) returns (h: History)
    requires Ready(g, s, i) && s.status == Recovery && LogMessageOk(g, best)
    requires s.view <= best.view && (best.view > s.view || best.op >= s.op)
    ensures SameLogs(g, h) && HistoryOk(h) && Grows(g, h, i) && ReplicaOk(h, AdoptResponse(s, best), i)
    ensures h.sent == g.sent && h.used == g.used
  {
    h := AdoptedHistory(g, s, i, best.view, best.op);
    LogMessageGrows(g, h, i, best);
    PrimaryAdoptsAll(g, s, i, best.view, best.op);
    HoldsMessageLog(h, AdoptResponse(s, best), i, best);
    AdoptedPlace(g, h, s, i, best);
  }

  lemma {:induction false} ResponsesCleared(g: History, s: State, i: nat)
    requires Shaped(g) && i < g.n && ReplicaOk(g, s, i) && s.status == Normal
    ensures ReplicaOk(g, s.(nonce := ZERO128, responses := []), i)
  {
  }

  lemma {:induction false} BestResponse(g: History, s: State, i: nat, m: Message)
    requires Shaped(g) && i < g.n && PendingOk(g, s, i) && s.status == Recovery && LogMessageOk(g, m) && s.view <= m.view
    ensures LogMessageOk(g, MostRecent(s.responses + [m])) && s.view <= MostRecent(s.responses + [m]).view
  {
    var ms := s.responses + [m];
    MostRecentIsOne(ms);
    assert forall k :: 0 <= k < |ms| ==> s.view <= ms[k].view && LogMessageOk(g, ms[k]);
  }

  /** The effect of completing a recovery from one response. */
  function Recovered(s: State, best: Message): Effect {
    var executed := Execute(AdoptResponse(s, best));
    Effect(executed.state.(nonce := ZERO128, responses := []), executed.sent)
  }

  lemma {:induction false} RecoveredOk(g: History, s: State, i: nat, best: Message) returns (h: History)
    requires Ready(g, s, i) && s.status == Recovery && LogMessageOk(g, best)
    requires s.view <= best.view && (best.view > s.view || best.op >= s.op)
    ensures SameLogs(g, h) && QuietStep(g, h, s, i, Recovered(s, best))
  {
    h := ResponseAdopted(g, s, i, best);
    var s' := AdoptResponse(s, best);
    var e := Execute(s');
    ExecuteOk(h, s', i, e);
    RepliesOk(h, i, s', e);
    ResponsesCleared(h, e.state, i);
  }

  lemma {:induction false} OnStoredResponse(g: History, s: State, i: nat, m: Message)
    requires Ready(g, s, i) && s.status == Recovery && LogMessageOk(g, m) && s.view <= m.view && !CompletesRecovery(s, m)
    ensures QuietStep(g, g, s, i, HandleRecoveryResponse(s, m))
  {
    StoredResponseOk(g, s, i, m);
    QuietHere(g, s, i, HandleRecoveryResponse(s, m));
  }

  lemma {:induction false} StoredResponseOk(g: History, s: State, i: nat, m: Message)
    requires Ready(g, s, i) && s.status == Recovery && LogMessageOk(g, m) && s.view <= m.view
    ensures ReplicaOk(g, s.(responses := s.responses + [m]), i)
  {
  }

  lemma {:induction false} OnRecoveryResponse(g: History, s: State, i: nat, m: Message) returns (h: History)
    requires Ready(g, s, i) && CanProcessRecoveryResponse(s) && LogMessageOk(g, m) && s.view <= m.view
    requires CompletesRecovery(s, m) ==>
      var best := MostRecent(s.responses + [m]);
      best.view > s.view || best.op >= s.op
    ensures SameLogs(g, h) && QuietStep(g, h, s, i, HandleRecoveryResponse(s, m))
  {
    if CompletesRecovery(s, m) {
      var best := MostRecent(s.responses + [m]);
      BestResponse(g, s, i, m);
      assert HandleRecoveryResponse(s, m) == Recovered(s, best);
      h := RecoveredOk(g, s, i, best);
    } else {
      h := g;
      OnStoredResponse(g, s, i, m);
    }
  }
}
