/** The inductive invariant of a cluster with its history, and how its parts
    survive the steps of other replicas. */
module Invariant {
  import opened Types
  import opened Execution
  import opened Handlers
  import opened Cluster
  import opened Quorums
  import opened History

  /** The view whose log a replica holds. */
  function LogView(s: State): nat {
    if s.status == ViewChange then s.lastNormalView else s.view
  }

  /** `log` is exactly the first `op` entries of `h`, up to acknowledgements. */
  ghost predicate HoldsPrefix(log: Log, op: nat, h: seq<LogEntry>) {
    && op <= |h|
    && (forall k :: k in log <==> 1 <= k <= op)
    && (forall k :: 1 <= k <= op ==> log[k].Bare() == h[k - 1])
  }

  ghost predicate NoAcks(log: Log) {
    forall k :: k in log ==> log[k].acks == {}
  }

  /** Every acknowledgement recorded for view v is one that was really given there. */
  ghost predicate AcksOk(g: History, log: Log, v: nat)
    requires Shaped(g)
  {
    forall k, j :: k in log && j in log[k].acks ==> Acked(g, j, v, k)
  }

  /** Replica j has held the first k entries of view v in view v. */
  ghost predicate Acked(g: History, j: nat, v: nat, k: nat)
    requires Shaped(g)
  {
    j < g.n && v in g.reach[j] && k <= g.reach[j][v]
  }

  /** `m` carries a log of its own view that is long enough to continue from. */
  ghost predicate LogMessageOk(g: History, m: Message)
    requires Shaped(g)
  {
    && m.body.ok && m.view < |g.views|
    && HoldsPrefix(m.body.log, m.op, g.views[m.view].log) && NoAcks(m.body.log)
    && g.views[m.view].start <= m.op && Committed(g, m.commit, m.view)
  }

  ghost predicate DoViewChangeOk(g: History, m: Message)
    requires Shaped(g)
  {
    && m.body.ok && m.view > 0 && m.body.lastNormalView == m.view - 1
    && m.replica < g.n && m.view <= g.cur[m.replica] && m.view in g.sent[m.replica]
    && m.view - 1 < |g.views| && m.view - 1 in g.reach[m.replica] && g.reach[m.replica][m.view - 1] == m.op
    && HoldsPrefix(m.body.log, m.op, g.views[m.view - 1].log) && NoAcks(m.body.log)
    && Committed(g, m.commit, m.view - 1)
  }

  /** All of `a` are replicas that have come to view v or later. */
  ghost predicate HaveEntered(g: History, a: set<nat>, v: nat)
    requires Shaped(g)
  {
    forall j :: j in a ==> j < g.n && v <= g.cur[j]
  }

  /** What holds of a replica that is changing views. */
  ghost predicate ChangeOk(g: History, s: State, i: nat)
    requires Shaped(g) && i < g.n
  {
    && s.view == s.lastNormalView + 1
    && |s.doViewChanges| <= F(g.n)
    && (forall a :: 0 <= a < |s.doViewChanges| ==>
          s.doViewChanges[a].view == s.view && DoViewChangeOk(g, s.doViewChanges[a]))
    && (forall a, b :: 0 <= a < b < |s.doViewChanges| ==>
          s.doViewChanges[a].replica != s.doViewChanges[b].replica)
    && HaveEntered(g, s.startViewChanges, s.view) && (g.n > 1 ==> |s.startViewChanges| <= F(g.n))
    && (s.view in g.sent[i] ==>
          HaveEntered(g, g.used[i], s.view) && |g.used[i]| >= F(g.n) + 1 && s.startViewChanges !! g.used[i])
  }

  /** The replica stands where the history says it stands. */
  ghost predicate PlaceOk(g: History, s: State, i: nat)
    requires Shaped(g) && i < g.n
  {
    var v := LogView(s);
    && s.id == i && s.n == g.n && g.cur[i] == s.view
    && v < |g.views| && v in g.reach[i] && g.reach[i][v] == s.op
    && (forall w :: w in g.reach[i] ==> w <= v)
    && (forall w :: w in g.sent[i] ==> w <= s.view)
  }

  /** Its log is a prefix of its view's log, all of it at the view's primary. */
  ghost predicate LogOk(g: History, s: State, i: nat)
    requires Shaped(g)
  {
    var v := LogView(s);
    && v < |g.views|
    && HoldsPrefix(s.log, s.op, g.views[v].log)
    && (Primary(g.n, v) == i ==> s.op == |g.views[v].log|)
    && AcksOk(g, s.log, v)
  }

  /** What it believes committed is committed, and it has executed only that. */
  ghost predicate CommitOk(g: History, s: State)
    requires Shaped(g)
  {
    && Committed(g, s.commit, LogView(s))
    && s.lastExecuted <= s.op && Committed(g, s.lastExecuted, LogView(s))
  }

  /** What it has collected for a view change or a recovery is sound. */
  ghost predicate PendingOk(g: History, s: State, i: nat)
    requires Shaped(g) && i < g.n
  {
    && (s.status == ViewChange ==> ChangeOk(g, s, i))
    && (s.status == Recovery ==>
          forall a :: 0 <= a < |s.responses| ==> s.view <= s.responses[a].view && LogMessageOk(g, s.responses[a]))
  }

  ghost predicate ReplicaOk(g: History, s: State, i: nat)
    requires Shaped(g) && i < g.n
  {
    PlaceOk(g, s, i) && LogOk(g, s, i) && CommitOk(g, s) && PendingOk(g, s, i)
  }

  ghost predicate PacketOk(g: History, p: Packet)
    requires Shaped(g)
  {
    var m := p.msg;
    && p.src < g.n && p.dst < g.n && p.src != p.dst
    && match m.command
       case Request => false
       case Prepare =>
         && m.view < |g.views| && 1 <= m.op <= |g.views[m.view].log|
         && g.views[m.view].log[m.op - 1] == EntryFor(m.view, m, {})
         && Committed(g, m.commit, m.view)
       case PrepareOk => Acked(g, m.replica, m.view, m.op)
       case Commit => Committed(g, m.commit, m.view)
       case StartViewChange =>
         && m.view <= g.cur[p.src]
         && m == BLANK.(command := StartViewChange, view := m.view, replica := p.src)
       case DoViewChange => m.replica == p.src && DoViewChangeOk(g, m)
       case StartView => LogMessageOk(g, m) && m.op == g.views[m.view].start
       case RecoveryResponse => LogMessageOk(g, m)
       case _ => true
  }

  predicate IsChangeMessage(m: Message) {
    m.command == StartViewChange || m.command == DoViewChange
  }

  predicate SameDoViewChange(m: Message, m': Message) {
    m.command == m'.command == DoViewChange && m.view == m'.view && m.replica == m'.replica
  }

  /** No view-change message exists twice, on the network or already received. */
  ghost predicate UniqueOk(c: Cluster, g: History)
    requires Shaped(g) && |c.replicas| == g.n
  {
    && (forall p :: p in c.net && IsChangeMessage(p.msg) ==> c.net[p] == 1)
    && (forall p, q :: p in c.net && q in c.net && SameDoViewChange(p.msg, q.msg) ==> p == q)
    && (forall p :: p in c.net && IsChangeMessage(p.msg) && p.dst < g.n ==> NotYetReceived(c.replicas[p.dst], g, p))
  }

  ghost predicate NotYetReceived(s: State, g: History, p: Packet)
    requires Shaped(g) && p.dst < g.n
  {
    s.status == ViewChange && s.view == p.msg.view ==>
      if p.msg.command == StartViewChange then
        p.msg.replica !in s.startViewChanges && (s.view in g.sent[p.dst] ==> p.msg.replica !in g.used[p.dst])
      else
        forall a :: 0 <= a < |s.doViewChanges| ==> s.doViewChanges[a].replica != p.msg.replica
  }

  ghost predicate Inv(c: Cluster, g: History) {
    && HistoryOk(g) && c.n == g.n && |c.replicas| == c.n
    && (forall i :: 0 <= i < c.n ==> ReplicaOk(g, c.replicas[i], i))
    && (forall p :: p in c.net ==> PacketOk(g, p))
    && UniqueOk(c, g)
  }

  // Steps of other replicas

  lemma {:induction false} LogMessageGrows(g: History, h: History, i: nat, m: Message)
    requires Grows(g, h, i) && LogMessageOk(g, m)
    ensures LogMessageOk(h, m)
  {
    GrowsExtends(g, h, i);
    assert ViewGrows(g, h, i, m.view);
    CommittedGrows(g, h, m.commit, m.view);
  }

  lemma {:induction false} DoViewChangeGrows(g: History, h: History, i: nat, m: Message)
    requires Grows(g, h, i) && DoViewChangeOk(g, m)
    ensures DoViewChangeOk(h, m)
  {
    GrowsExtends(g, h, i);
    assert ViewGrows(g, h, i, m.view - 1);
    CommittedGrows(g, h, m.commit, m.view - 1);
  }

  lemma {:induction false} PacketGrows(g: History, h: History, i: nat, p: Packet)
    requires Grows(g, h, i) && PacketOk(g, p)
    ensures PacketOk(h, p)
  {
    var m := p.msg;
    GrowsExtends(g, h, i);
    match m.command
    case Prepare =>
      assert ViewGrows(g, h, i, m.view);
      CommittedGrows(g, h, m.commit, m.view);
    case Commit => CommittedGrows(g, h, m.commit, m.view);
    case DoViewChange => DoViewChangeGrows(g, h, i, m);
    case StartView =>
      LogMessageGrows(g, h, i, m);
      assert ViewGrows(g, h, i, m.view);
    case RecoveryResponse => LogMessageGrows(g, h, i, m);
    case _ =>
  }

  lemma {:induction false} AcksGrow(g: History, h: History, i: nat, log: Log, v: nat)
    requires Grows(g, h, i) && AcksOk(g, log, v)
    ensures AcksOk(h, log, v)
  {
    GrowsExtends(g, h, i);
    forall k, j | k in log && j in log[k].acks ensures Acked(h, j, v, k) {
      assert Acked(g, j, v, k);
    }
  }

  /** The received messages of a replica keep their meaning whoever acts. */
  lemma {:induction false} ReceivedGrows(g: History, h: History, i: nat, s: State)
    requires Grows(g, h, i)
    ensures forall a :: 0 <= a < |s.doViewChanges| && DoViewChangeOk(g, s.doViewChanges[a]) ==>
              DoViewChangeOk(h, s.doViewChanges[a])
    ensures forall a :: 0 <= a < |s.responses| && LogMessageOk(g, s.responses[a]) ==>
              LogMessageOk(h, s.responses[a])
  {
    forall a | 0 <= a < |s.doViewChanges| && DoViewChangeOk(g, s.doViewChanges[a])
      ensures DoViewChangeOk(h, s.doViewChanges[a])
    {
      DoViewChangeGrows(g, h, i, s.doViewChanges[a]);
    }
    forall a | 0 <= a < |s.responses| && LogMessageOk(g, s.responses[a]) ensures LogMessageOk(h, s.responses[a]) {
      LogMessageGrows(g, h, i, s.responses[a]);
    }
  }

  lemma {:induction false} CommitGrows(g: History, h: History, i: nat, s: State)
    requires Grows(g, h, i) && CommitOk(g, s)
    ensures CommitOk(h, s)
  {
    GrowsExtends(g, h, i);
    CommittedGrows(g, h, s.commit, LogView(s));
    CommittedGrows(g, h, s.lastExecuted, LogView(s));
  }

  lemma {:induction false} ReplicaGrows(g: History, h: History, i: nat, s: State, j: nat)
    requires Grows(g, h, i) && j < g.n && j != i && ReplicaOk(g, s, j)
    ensures ReplicaOk(h, s, j)
  {
    assert ViewGrows(g, h, i, LogView(s));
    CommitGrows(g, h, i, s);
    AcksGrow(g, h, i, s.log, LogView(s));
    ReceivedGrows(g, h, i, s);
  }

  // Putting a step together

  /** The invariant after replica i's step, from what the step itself did. */
  lemma {:induction false} StepKeepsInv(c: Cluster, g: History, c': Cluster, h: History, i: nat)
    requires Inv(c, g) && HistoryOk(h) && Grows(g, h, i)
    requires c'.n == c.n && |c'.replicas| == c.n && c'.replicas == c.replicas[i := c'.replicas[i]]
    requires ReplicaOk(h, c'.replicas[i], i)
    requires forall p :: p in c'.net ==> p in c.net || PacketOk(h, p)
    requires UniqueOk(c', h)
    ensures Inv(c', h)
  {
    forall j | 0 <= j < c.n ensures ReplicaOk(h, c'.replicas[j], j) {
      if j != i {
        ReplicaGrows(g, h, i, c.replicas[j], j);
      }
    }
    forall p | p in c'.net ensures PacketOk(h, p) {
      if p in c.net {
        PacketGrows(g, h, i, p);
      }
    }
  }

  /** A replica's bookkeeping of a view change is as it was, or no longer matters. */
  ghost predicate SameChange(s: State, t: State) {
    t.status == ViewChange ==>
      s.status == ViewChange && t.view == s.view &&
      t.startViewChanges == s.startViewChanges && t.doViewChanges == s.doViewChanges
  }

  /** A step that sends no view-change message keeps those that exist unique. */
  lemma {:induction false} QuietKeepsUnique(c: Cluster, g: History, c': Cluster, h: History, i: nat)
    requires Shaped(g) && |c.replicas| == g.n && UniqueOk(c, g) && Grows(g, h, i)
    requires |c'.replicas| == g.n && c'.replicas == c.replicas[i := c'.replicas[i]]
    requires SameChange(c.replicas[i], c'.replicas[i])
    requires h.sent[i] == g.sent[i] && h.used[i] == g.used[i]
    requires forall p :: p in c'.net && IsChangeMessage(p.msg) ==> p in c.net && c'.net[p] <= c.net[p]
    ensures UniqueOk(c', h)
  {
    forall p | p in c'.net && IsChangeMessage(p.msg) && p.dst < h.n ensures NotYetReceived(c'.replicas[p.dst], h, p) {
      assert NotYetReceived(c.replicas[p.dst], g, p);
    }
  }

  /** No output is a view-change message. */
  ghost predicate Quiet(outs: seq<Output>) {
    forall o :: o in outs ==> !IsChangeMessage(o.msg)
  }

  lemma {:induction false} QuietPackets(src: nat, n: ClusterSize, outs: seq<Output>, p: Packet)
    requires Quiet(outs) && IsChangeMessage(p.msg)
    ensures p !in Packets(src, n, outs)
  {
    if p in Packets(src, n, outs) {
      PacketOrigin(src, n, outs, p);
    }
  }
}
