/** Every step of a cluster keeps the invariant. */
module Steps {
  import opened Types
  import opened Execution
  import opened Handlers
  import opened Cluster
  import opened Quorums
  import opened History
  import opened Invariant
  import opened Preservation

  /** c' is c after replica i did e, with `net` left on the network. */
  ghost predicate Moved(c: Cluster, c': Cluster, i: nat, e: Effect, net: multiset<Packet>) {
    && i < c.n && |c.replicas| == c.n && c'.n == c.n
    && c'.replicas == c.replicas[i := e.state]
    && c'.net == net + Packets(i, c.n, e.sent) && net <= c.net
  }

  lemma {:induction false} NewPacketsOk(c: Cluster, c': Cluster, i: nat, e: Effect, net: multiset<Packet>, h: History)
    requires Moved(c, c', i, e, net) && Shaped(h) && h.n == c.n && OutputsOk(h, i, e.sent)
    ensures forall p :: p in c'.net ==> p in c.net || PacketOk(h, p)
  {
    forall p | p in c'.net && p !in c.net ensures PacketOk(h, p) {
      PacketOrigin(i, c.n, e.sent, p);
      var o :| o in e.sent && o.msg == p.msg && p in PacketsOf(i, c.n, o);
      assert PacketOk(h, Packet(i, p.dst, o.msg));
    }
  }

  lemma {:induction false} QuietClusterStep(c: Cluster, c': Cluster, i: nat, e: Effect, net: multiset<Packet>, g: History, h: History)
    requires Inv(c, g) && Moved(c, c', i, e, net) && QuietStep(g, h, c.replicas[i], i, e)
    ensures Inv(c', h)
  {
    NewPacketsOk(c, c', i, e, net, h);
    forall p | p in c'.net && IsChangeMessage(p.msg) ensures p in c.net && c'.net[p] <= c.net[p] {
      QuietPackets(i, c.n, e.sent, p);
    }
    QuietKeepsUnique(c, g, c', h, i);
    StepKeepsInv(c, g, c', h, i);
  }

  // Leaving a view

  lemma {:induction false} NotAnnounced(c: Cluster, i: nat, g: History, p: Packet)
    requires Inv(c, g) && i < c.n && c.replicas[i].status == Normal && p in c.net && p.src == i
    ensures p.msg != StartViewChangeMessage(EnterNewView(c.replicas[i], c.replicas[i].view + 1))
  {
    assert ReplicaOk(g, c.replicas[i], i);
    assert PacketOk(g, p);
  }

  /** The announcement of a newly entered view is on the network nowhere else. */
  lemma {:induction false} AnnouncedOnce(c: Cluster, c': Cluster, i: nat, g: History)
    requires Inv(c, g) && i < c.n && c.replicas[i].status == Normal
    requires Moved(c, c', i, InitiateViewChange(c.replicas[i]), c.net)
    ensures forall p :: p in c'.net && p !in c.net ==>
              p.msg == StartViewChangeMessage(c'.replicas[i]) && p.src == i && c'.net[p] == 1
    ensures forall p :: p in c.net ==> c'.net[p] == c.net[p]
  {
    var m := StartViewChangeMessage(c'.replicas[i]);
    OneOutput(i, c.n, Broadcast(m));
    forall p | p in c.net && p.src == i ensures p.msg != m {
      NotAnnounced(c, i, g, p);
    }
  }

  /** None of the messages of a newly entered view have been received. */
  lemma {:induction false} EnteredNotReceived(c: Cluster, c': Cluster, i: nat, g: History, h: History, p: Packet)
    requires Inv(c, g) && i < c.n && c.replicas[i].status == Normal
    requires Moved(c, c', i, InitiateViewChange(c.replicas[i]), c.net)
    requires h == Entered(g, i, c.replicas[i].view + 1)
    requires IsChangeMessage(p.msg) && p.dst < g.n
    requires p in c.net || (p.msg == StartViewChangeMessage(c'.replicas[i]) && p.src == i && p.dst != i)
    ensures NotYetReceived(c'.replicas[p.dst], h, p)
  {
    assert ReplicaOk(g, c.replicas[i], i);
    assert ReplicaOk(g, c.replicas[p.dst], p.dst);
    assert p in c.net ==> PacketOk(g, p) && NotYetReceived(c.replicas[p.dst], g, p);
  }

  lemma {:induction false} LeaveViewUnique(c: Cluster, c': Cluster, i: nat, g: History, h: History)
    requires Inv(c, g) && i < c.n && c.replicas[i].status == Normal
    requires Moved(c, c', i, InitiateViewChange(c.replicas[i]), c.net)
    requires h == Entered(g, i, c.replicas[i].view + 1)
    ensures UniqueOk(c', h)
  {
    AnnouncedOnce(c, c', i, g);
    forall p | p in c'.net && IsChangeMessage(p.msg) && p.dst < h.n ensures NotYetReceived(c'.replicas[p.dst], h, p) {
      if p !in c.net {
        PacketOrigin(i, c.n, InitiateViewChange(c.replicas[i]).sent, p);
      }
      EnteredNotReceived(c, c', i, g, h, p);
    }
  }

  lemma {:induction false} LeaveViewStep(c: Cluster, c': Cluster, i: nat, g: History) returns (h: History)
    requires Inv(c, g) && i < c.n && c.replicas[i].status == Normal
    requires Moved(c, c', i, InitiateViewChange(c.replicas[i]), c.net)
    ensures SameLogs(g, h) && Inv(c', h) && Grows(g, h, i)
  {
    var s := c.replicas[i];
    h := OnLeaveView(g, s, i);
    LeaveViewUnique(c, c', i, g, h);
    LeaveViewInv(c, c', i, g, h, InitiateViewChange(s));
  }

  lemma {:induction false} LeaveViewInv(c: Cluster, c': Cluster, i: nat, g: History, h: History, e: Effect)
    requires Inv(c, g) && Moved(c, c', i, e, c.net) && LocalOk(g, h, i, e) && UniqueOk(c', h)
    ensures Inv(c', h)
  {
    NewPacketsOk(c, c', i, e, c.net, h);
    StepKeepsInv(c, g, c', h, i);
  }

  // Collecting DoViewChange messages

  /** `m` is for the view replica i waits to lead, and not one it already has. */
  ghost predicate NewDoViewChange(g: History, s: State, m: Message)
    requires Shaped(g)
  {
    && s.status == ViewChange && m.view == s.view && DoViewChangeOk(g, m)
    && forall a :: 0 <= a < |s.doViewChanges| ==> s.doViewChanges[a].replica != m.replica
  }

  lemma {:induction false} CollectedOk(g: History, s: State, i: nat, m: Message)
    requires Shaped(g) && i < g.n && ReplicaOk(g, s, i) && NewDoViewChange(g, s, m) && |s.doViewChanges| < F(g.n)
    ensures ReplicaOk(g, s.(doViewChanges := s.doViewChanges + [m]), i)
  {
    assert ChangeOk(g, s.(doViewChanges := s.doViewChanges + [m]), i);
  }

  lemma {:induction false} CompleteSet(g: History, s: State, i: nat, m: Message)
    requires Shaped(g) && i < g.n && ReplicaOk(g, s, i) && NewDoViewChange(g, s, m) && Primary(g.n, s.view) == i
    requires |s.doViewChanges| >= F(g.n)
    ensures FullSet(g, s, i, s.doViewChanges + [m])
  {
  }

  /** Once p has been taken off the network, no message like it from its sender is left. */
  lemma {:induction false} NoOtherLike(c: Cluster, g: History, p: Packet, q: Packet)
    requires Inv(c, g) && p in c.net && IsChangeMessage(p.msg) && q in c.net - multiset{p}
    requires q.msg.command == p.msg.command && q.dst == p.dst && q.msg.view == p.msg.view
    ensures q.msg.replica != p.msg.replica
  {
    assert c.net[p] == 1 && q != p;
    assert PacketOk(g, p) && PacketOk(g, q);
    assert !SameDoViewChange(p.msg, q.msg);
  }

  /** c' is c after replica p.dst took p off the network and noted it in s'. */
  ghost predicate Received(c: Cluster, c': Cluster, p: Packet, s': State) {
    && p.dst < c.n == |c.replicas| && c'.n == c.n
    && c'.replicas == c.replicas[p.dst := s'] && c'.net == c.net - multiset{p}
  }

  /** s' is s with p noted. */
  ghost predicate Noted(s: State, s': State, p: Packet) {
    if p.msg.command == DoViewChange then s' == s.(doViewChanges := s.doViewChanges + [p.msg])
    else s' == s.(startViewChanges := s.startViewChanges + {p.msg.replica})
  }

  lemma {:induction false} NotedOther(s: State, s': State, g: History, p: Packet, q: Packet)
    requires Shaped(g) && p.dst == q.dst < g.n && Noted(s, s', p) && NotYetReceived(s, g, q)
    requires IsChangeMessage(p.msg) && IsChangeMessage(q.msg) && s.view == p.msg.view
    requires q.msg.view == p.msg.view && q.msg.command == p.msg.command ==> q.msg.replica != p.msg.replica
    ensures NotYetReceived(s', g, q)
  {
  }

  lemma {:induction false} ReceivedOthers(c: Cluster, c': Cluster, p: Packet, s': State, g: History, q: Packet)
    requires Inv(c, g) && p in c.net && IsChangeMessage(p.msg) && Received(c, c', p, s')
    requires c.replicas[p.dst].view == p.msg.view && Noted(c.replicas[p.dst], s', p)
    requires q in c'.net && IsChangeMessage(q.msg) && q.dst < g.n
    ensures NotYetReceived(c'.replicas[q.dst], g, q)
  {
    assert NotYetReceived(c.replicas[q.dst], g, q);
    if q.dst == p.dst {
      if q.msg.view == p.msg.view && q.msg.command == p.msg.command {
        NoOtherLike(c, g, p, q);
      }
      NotedOther(c.replicas[p.dst], s', g, p, q);
    }
  }

  lemma {:induction false} ReceivedUnique(c: Cluster, c': Cluster, p: Packet, s': State, g: History)
    requires Inv(c, g) && p in c.net && IsChangeMessage(p.msg) && Received(c, c', p, s')
    requires c.replicas[p.dst].view == p.msg.view && Noted(c.replicas[p.dst], s', p)
    ensures UniqueOk(c', g)
  {
    forall q | q in c'.net && IsChangeMessage(q.msg) && q.dst < g.n ensures NotYetReceived(c'.replicas[q.dst], g, q) {
      ReceivedOthers(c, c', p, s', g, q);
    }
  }

  /** Noting a message without acting on it keeps the invariant. */
  lemma {:induction false} NoteStep(c: Cluster, c': Cluster, p: Packet, s': State, g: History)
    requires Inv(c, g) && p in c.net && IsChangeMessage(p.msg) && Received(c, c', p, s')
    requires c.replicas[p.dst].view == p.msg.view && Noted(c.replicas[p.dst], s', p)
    requires ReplicaOk(g, s', p.dst)
    ensures Inv(c', g) && Grows(g, g, p.dst)
  {
    ReceivedUnique(c, c', p, s', g);
    GrowsRefl(g, p.dst);
    StepKeepsInv(c, g, c', g, p.dst);
  }

  /** Handling a DoViewChange that is not a repetition, short of a quorum or completing it. */
  lemma {:induction false} CollectEffect(g: History, s: State, i: nat, m: Message, e: Effect) returns (h: History)
    requires Ready(g, s, i) && NewDoViewChange(g, s, m) && Primary(g.n, s.view) == i && e == HandleDoViewChange(s, m)
    ensures SameLogs(g, h) && LocalOk(g, h, i, e) && Quiet(e.sent) && h.sent == g.sent && h.used == g.used
    ensures |s.doViewChanges| < F(g.n) ==> h == g && e == Effect(s.(doViewChanges := s.doViewChanges + [m]), [])
    ensures |s.doViewChanges| >= F(g.n) ==> e.state.status == Normal
    ensures e.state.status == ViewChange ==> e.state == s.(doViewChanges := s.doViewChanges + [m])
  {
    PrimaryIs(g, s, i);
    if |s.doViewChanges| < F(g.n) {
      h := g;
      CollectedOk(g, s, i, m);
      QuietHere(g, s.(doViewChanges := s.doViewChanges + [m]), i, e);
    } else {
      CompleteSet(g, s, i, m);
      h := OnLastDoViewChange(g, s, i, m);
    }
  }

  lemma {:induction false} DoViewChangeStep(c: Cluster, c': Cluster, p: Packet, g: History) returns (h: History)
    requires Inv(c, g) && p in c.net && p.msg.command == DoViewChange && p.dst < c.n
    requires CanProcessDoViewChange(c.replicas[p.dst], p.msg)
    requires Moved(c, c', p.dst, HandleDoViewChange(c.replicas[p.dst], p.msg), c.net - multiset{p})
    ensures SameLogs(g, h) && Inv(c', h) && Grows(g, h, p.dst)
  {
    var i, m, s := p.dst, p.msg, c.replicas[p.dst];
    var e := HandleDoViewChange(s, m);
    assert ReplicaOk(g, s, i) && PacketOk(g, p) && NotYetReceived(s, g, p);
    h := CollectEffect(g, s, i, m, e);
    DoViewChangeDone(c, c', p, g, h, e);
  }

  lemma {:induction false} DoViewChangeDone(c: Cluster, c': Cluster, p: Packet, g: History, h: History, e: Effect)
    requires Inv(c, g) && p in c.net && p.msg.command == DoViewChange && p.dst < c.n && c.replicas[p.dst].view == p.msg.view
    requires Moved(c, c', p.dst, e, c.net - multiset{p})
    requires LocalOk(g, h, p.dst, e) && Quiet(e.sent) && h.sent == g.sent && h.used == g.used
    requires var s := c.replicas[p.dst];
      e.state.status == Normal || (h == g && e == Effect(s.(doViewChanges := s.doViewChanges + [p.msg]), []))
    ensures Inv(c', h)
  {
    if e.state.status == Normal {
      QuietClusterStep(c, c', p.dst, e, c.net - multiset{p}, g, h);
    } else {
      NoteStep(c, c', p, e.state, g);
    }
  }

  // Collecting StartViewChange messages

  /** A replica that has issued its DoViewChange cannot reach a second quorum. */
  lemma {:induction false} OneQuorumOnly(g: History, s: State, i: nat, j: nat)
    requires Shaped(g) && i < g.n && ReplicaOk(g, s, i) && s.status == ViewChange
    requires j < g.n && j !in s.startViewChanges && (s.view in g.sent[i] ==> j !in g.used[i])
    requires |s.startViewChanges + {j}| >= F(g.n) + 1
    ensures s.view !in g.sent[i]
  {
    var now, before := s.startViewChanges + {j}, g.used[i];
    assert s.view in g.sent[i] ==> now !! before && |now + before| == |now| + |before|;
    if s.view in g.sent[i] {
      WithinSize(now + before, g.n);
    }
  }

  lemma {:induction false} CountedOk(g: History, s: State, i: nat, p: Packet)
    requires Shaped(g) && i < g.n && ReplicaOk(g, s, i) && CanProcessStartViewChange(s, p.msg)
    requires PacketOk(g, p) && p.msg.command == StartViewChange && p.dst == i && NotYetReceived(s, g, p)
    requires |s.startViewChanges + {p.msg.replica}| <= F(g.n)
    ensures ReplicaOk(g, s.(startViewChanges := s.startViewChanges + {p.msg.replica}), i)
  {
    assert ChangeOk(g, s.(startViewChanges := s.startViewChanges + {p.msg.replica}), i);
  }

  /** The replica as it stands when a StartViewChange quorum makes it issue its DoViewChange. */
  lemma {:induction false} IssuedReplicaOk(g: History, s: State, i: nat, quorum: set<nat>) returns (h: History)
    requires Ready(g, s, i) && s.status == ViewChange && s.view !in g.sent[i]
    requires HaveEntered(g, quorum, s.view) && |quorum| >= F(g.n) + 1
    ensures h == Issued(g, i, s.view, quorum) && HistoryOk(h) && Grows(g, h, i)
    ensures ReplicaOk(h, s.(startViewChanges := {}), i)
  {
    h := Issued(g, i, s.view, quorum);
    IssuedOk(g, i, s.view, quorum);
    IssuedParts(g, h, s, i, quorum);
  }

  lemma {:induction false} IssuedParts(g: History, h: History, s: State, i: nat, quorum: set<nat>)
    requires Ready(g, s, i) && s.status == ViewChange && HaveEntered(g, quorum, s.view) && |quorum| >= F(g.n) + 1
    requires h == Issued(g, i, s.view, quorum) && Grows(g, h, i)
    ensures ReplicaOk(h, s.(startViewChanges := {}), i)
  {
    CommitGrows(g, h, i, s);
    IssuedLog(g, h, s, i);
    IssuedPending(g, h, s, i, quorum);
  }

  lemma {:induction false} IssuedLog(g: History, h: History, s: State, i: nat)
    requires Grows(g, h, i) && h.views == g.views && LogOk(g, s, i)
    ensures LogOk(h, s.(startViewChanges := {}), i)
  {
    AcksGrow(g, h, i, s.log, LogView(s));
  }

  lemma {:induction false} IssuedPending(g: History, h: History, s: State, i: nat, quorum: set<nat>)
    requires Ready(g, s, i) && s.status == ViewChange && HaveEntered(g, quorum, s.view) && |quorum| >= F(g.n) + 1
    requires h == Issued(g, i, s.view, quorum) && Grows(g, h, i)
    ensures PendingOk(h, s.(startViewChanges := {}), i)
  {
    ReceivedGrows(g, h, i, s);
    assert ChangeOk(h, s.(startViewChanges := {}), i);
  }

  /** Replica i, moved by p, has issued its DoViewChange: on the network for another
      primary, or noted or acted on at once when it is to be the primary itself. */
  ghost predicate IssuedBy(c: Cluster, c': Cluster, p: Packet, g: History, h: History, own: Packet)
    requires Inv(c, g) && p.dst < c.n
  {
    var i, s := p.dst, c.replicas[p.dst];
    && |c'.replicas| == c.n && c'.replicas == c.replicas[i := c'.replicas[i]] && Grows(g, h, i)
    && s.status == ViewChange && s.view == p.msg.view && s.view !in g.sent[i]
    && h.sent[i] == g.sent[i] + {s.view} && h.used[i] == s.startViewChanges + {p.msg.replica}
    && own.src == i && own.msg == DoViewChangeMessage(s)
    && (forall q :: q in c'.net && IsChangeMessage(q.msg) ==>
          (q in c.net - multiset{p} && c'.net[q] <= c.net[q]) || (q == own && c'.net[q] <= c.net[q] + 1))
    && var s' := c'.replicas[i];
       (s'.status == ViewChange ==>
          && s'.view == s.view && s'.startViewChanges == {}
          && (s'.doViewChanges == s.doViewChanges || s'.doViewChanges == s.doViewChanges + [own.msg]))
  }

  /** Nothing that a replica has yet to issue is on the network or with a primary. */
  lemma {:induction false} NotIssuedYet(c: Cluster, g: History, i: nat, q: Packet, j: nat)
    requires Inv(c, g) && i < c.n && j < c.n && c.replicas[i].view !in g.sent[i]
    ensures q in c.net && q.msg.command == DoViewChange && q.msg.view == c.replicas[i].view ==> q.msg.replica != i
    ensures c.replicas[j].status == ViewChange && c.replicas[j].view == c.replicas[i].view ==>
              forall a :: 0 <= a < |c.replicas[j].doViewChanges| ==> c.replicas[j].doViewChanges[a].replica != i
  {
    assert q in c.net ==> PacketOk(g, q);
    assert ReplicaOk(g, c.replicas[j], j);
  }

  lemma {:induction false} IssueNotReceived(c: Cluster, c': Cluster, p: Packet, g: History, h: History, own: Packet, q: Packet)
    requires Inv(c, g) && p in c.net && p.msg.command == StartViewChange && p.dst < c.n
    requires IssuedBy(c, c', p, g, h, own) && IsChangeMessage(q.msg) && q.dst < c.n
    requires q in c.net - multiset{p} || (q == own && q.dst != p.dst)
    ensures NotYetReceived(c'.replicas[q.dst], h, q)
  {
    NotIssuedYet(c, g, p.dst, q, q.dst);
    if q in c.net {
      assert NotYetReceived(c.replicas[q.dst], g, q) && PacketOk(g, q);
      if q.dst == p.dst {
        IssueNotReceivedHere(c, c', p, g, h, own, q);
      } else {
        IssueNotReceivedThere(c, c', p, g, h, own, q);
      }
    }
  }

  lemma {:induction false} IssueNotReceivedThere(c: Cluster, c': Cluster, p: Packet, g: History, h: History, own: Packet, q: Packet)
    requires Inv(c, g) && p.dst < c.n && IssuedBy(c, c', p, g, h, own) && IsChangeMessage(q.msg) && q.dst < c.n && q.dst != p.dst
    requires NotYetReceived(c.replicas[q.dst], g, q)
    ensures NotYetReceived(c'.replicas[q.dst], h, q)
  {
  }

  lemma {:induction false} IssueNotReceivedHere(c: Cluster, c': Cluster, p: Packet, g: History, h: History, own: Packet, q: Packet)
    requires Inv(c, g) && p in c.net && p.msg.command == StartViewChange && p.dst < c.n
    requires IssuedBy(c, c', p, g, h, own) && IsChangeMessage(q.msg) && q.dst == p.dst && q in c.net - multiset{p}
    requires NotYetReceived(c.replicas[q.dst], g, q) && PacketOk(g, q)
    requires q.msg.command == DoViewChange && q.msg.view == c.replicas[p.dst].view ==> q.msg.replica != p.dst
    ensures NotYetReceived(c'.replicas[q.dst], h, q)
  {
    if q.msg.view == p.msg.view && q.msg.command == p.msg.command {
      NoOtherLike(c, g, p, q);
    }
  }

  lemma {:induction false} IssueUnique(c: Cluster, c': Cluster, p: Packet, g: History, h: History, own: Packet)
    requires Inv(c, g) && p in c.net && p.msg.command == StartViewChange && p.dst < c.n
    requires IssuedBy(c, c', p, g, h, own) && own.dst != p.dst
    ensures UniqueOk(c', h)
  {
    NotIssuedYet(c, g, p.dst, own, 0);
    forall q | q in c'.net && IsChangeMessage(q.msg) ensures c'.net[q] == 1 {
      assert q in c.net ==> c.net[q] == 1;
    }
    forall q, r | q in c'.net && r in c'.net && SameDoViewChange(q.msg, r.msg) ensures q == r {
      NotIssuedYet(c, g, p.dst, q, 0);
      NotIssuedYet(c, g, p.dst, r, 0);
    }
    forall q | q in c'.net && IsChangeMessage(q.msg) && q.dst < h.n ensures NotYetReceived(c'.replicas[q.dst], h, q) {
      IssueNotReceived(c, c', p, g, h, own, q);
    }
  }

  /** The issued message goes to another primary. */
  lemma {:induction false} IssueAbroad(c: Cluster, c': Cluster, p: Packet, g: History, h: History)
    requires Inv(c, g) && p in c.net && p.msg.command == StartViewChange && p.dst < c.n
    requires var i, s := p.dst, c.replicas[p.dst];
      && CanProcessStartViewChange(s, p.msg) && s.view !in g.sent[i]
      && h == Issued(g, i, s.view, s.startViewChanges + {p.msg.replica}) && HistoryOk(h) && Grows(g, h, i)
      && ReplicaOk(h, s.(startViewChanges := {}), i) && Primary(g.n, s.view) != i
      && Moved(c, c', i, Effect(s.(startViewChanges := {}),
                                [Send(PeerEnd(Primary(g.n, s.view)), DoViewChangeMessage(s))]), c.net - multiset{p})
    ensures Inv(c', h)
  {
    var i, s := p.dst, c.replicas[p.dst];
    var s' := s.(startViewChanges := {});
    var own := Packet(i, Primary(g.n, s.view), DoViewChangeMessage(s));
    OneOutput(i, c.n, Send(PeerEnd(own.dst), own.msg));
    OwnDoViewChange(h, s', i);
    assert DoViewChangeMessage(s') == own.msg;
    assert PacketOk(h, own);
    IssueUnique(c, c', p, g, h, own);
    StepKeepsInv(c, g, c', h, i);
  }

  /** The issued message stays at home: replica i is to lead the view. */
  lemma {:induction false} IssueAtHome(c: Cluster, c': Cluster, p: Packet, g: History, g1: History) returns (h: History)
    requires Inv(c, g) && p in c.net && p.msg.command == StartViewChange && p.dst < c.n
    requires var i, s := p.dst, c.replicas[p.dst];
      && CanProcessStartViewChange(s, p.msg) && s.view !in g.sent[i]
      && g1 == Issued(g, i, s.view, s.startViewChanges + {p.msg.replica}) && HistoryOk(g1) && Grows(g, g1, i)
      && ReplicaOk(g1, s.(startViewChanges := {}), i) && Primary(g.n, s.view) == i
      && Moved(c, c', i, HandleDoViewChange(s.(startViewChanges := {}), DoViewChangeMessage(s)), c.net - multiset{p})
    ensures SameLogs(g, h) && Inv(c', h) && Grows(g, h, p.dst) && h.sent == g1.sent
  {
    var s := c.replicas[p.dst];
    var e := HandleDoViewChange(s.(startViewChanges := {}), DoViewChangeMessage(s));
    h := HomeHistory(c, p, g, g1, e);
    HomeDone(c, c', p, g, h, e);
  }

  lemma {:induction false} HomeHistory(c: Cluster, p: Packet, g: History, g1: History, e: Effect) returns (h: History)
    requires Inv(c, g) && p.dst < c.n
    requires var i, s := p.dst, c.replicas[p.dst];
      && s.status == ViewChange && s.view !in g.sent[i]
      && g1 == Issued(g, i, s.view, s.startViewChanges + {p.msg.replica}) && HistoryOk(g1) && Grows(g, g1, i)
      && ReplicaOk(g1, s.(startViewChanges := {}), i) && Primary(g.n, s.view) == i
      && e == HandleDoViewChange(s.(startViewChanges := {}), DoViewChangeMessage(s))
    ensures var i, s := p.dst, c.replicas[p.dst];
      && SameLogs(g, h) && LocalOk(g, h, i, e) && Quiet(e.sent) && h.sent == g1.sent && h.used == g1.used
      && (e.state.status == ViewChange ==>
            e.state.view == s.view && e.state.startViewChanges == {}
            && e.state.doViewChanges == s.doViewChanges + [DoViewChangeMessage(s)])
  {
    var i, s := p.dst, c.replicas[p.dst];
    OwnIsNew(c, p, g, g1);
    h := CollectEffect(g1, s.(startViewChanges := {}), i, DoViewChangeMessage(s), e);
    ThroughIssue(g, g1, h, i, e);
  }

  lemma {:induction false} ThroughIssue(g: History, g1: History, h: History, i: nat, e: Effect)
    requires Grows(g, g1, i) && g1.views == g.views && g1.reach == g.reach && SameLogs(g1, h) && LocalOk(g1, h, i, e)
    ensures SameLogs(g, h) && LocalOk(g, h, i, e)
  {
    GrowsTrans(g, g1, h, i);
  }

  lemma {:induction false} HomeDone(c: Cluster, c': Cluster, p: Packet, g: History, h: History, e: Effect)
    requires Inv(c, g) && p in c.net && p.msg.command == StartViewChange && p.dst < c.n
    requires var i, s := p.dst, c.replicas[p.dst];
      && s.status == ViewChange && s.view == p.msg.view && s.view !in g.sent[i] && LocalOk(g, h, i, e)
      && h.sent[i] == g.sent[i] + {s.view} && h.used[i] == s.startViewChanges + {p.msg.replica}
      && Moved(c, c', i, e, c.net - multiset{p}) && Quiet(e.sent)
      && (e.state.status == ViewChange ==>
            e.state.view == s.view && e.state.startViewChanges == {}
            && e.state.doViewChanges == s.doViewChanges + [DoViewChangeMessage(s)])
    ensures Inv(c', h)
  {
    NewPacketsOk(c, c', p.dst, e, c.net - multiset{p}, h);
    HomeUnique(c, c', p, g, h, e);
    StepKeepsInv(c, g, c', h, p.dst);
  }

  lemma {:induction false} OwnIsNew(c: Cluster, p: Packet, g: History, g1: History)
    requires Inv(c, g) && p.dst < c.n && Shaped(g1)
    requires var i, s := p.dst, c.replicas[p.dst];
      && s.status == ViewChange && s.view !in g.sent[i] && i < g1.n && s.view in g1.sent[i]
      && ReplicaOk(g1, s.(startViewChanges := {}), i)
    ensures var s := c.replicas[p.dst]; NewDoViewChange(g1, s.(startViewChanges := {}), DoViewChangeMessage(s))
  {
    var i, s := p.dst, c.replicas[p.dst];
    var s1 := s.(startViewChanges := {});
    OwnDoViewChange(g1, s1, i);
    assert DoViewChangeMessage(s1) == DoViewChangeMessage(s);
    NotIssuedYet(c, g, i, p, i);
  }

  lemma {:induction false} HomeUnique(c: Cluster, c': Cluster, p: Packet, g: History, h: History, e: Effect)
    requires Inv(c, g) && p in c.net && p.msg.command == StartViewChange && p.dst < c.n
    requires var i, s := p.dst, c.replicas[p.dst];
      && s.status == ViewChange && s.view == p.msg.view && s.view !in g.sent[i] && Grows(g, h, i)
      && h.sent[i] == g.sent[i] + {s.view} && h.used[i] == s.startViewChanges + {p.msg.replica}
      && Moved(c, c', i, e, c.net - multiset{p}) && Quiet(e.sent)
      && (e.state.status == ViewChange ==>
            e.state.view == s.view && e.state.startViewChanges == {}
            && e.state.doViewChanges == s.doViewChanges + [DoViewChangeMessage(s)])
    ensures UniqueOk(c', h)
  {
    var i, s := p.dst, c.replicas[p.dst];
    var own := Packet(i, i + 1, DoViewChangeMessage(s));
    forall q | q in c'.net && IsChangeMessage(q.msg) ensures q in c.net - multiset{p} && c'.net[q] <= c.net[q] {
      QuietPackets(i, c.n, e.sent, q);
    }
    IssueUnique(c, c', p, g, h, own);
  }

  /** The history when a StartViewChange has completed a quorum. */
  lemma {:induction false} QuorumHistory(c: Cluster, p: Packet, g: History) returns (h: History)
    requires Inv(c, g) && p in c.net && p.msg.command == StartViewChange && p.dst < c.n
    requires CanProcessStartViewChange(c.replicas[p.dst], p.msg)
    requires |c.replicas[p.dst].startViewChanges + {p.msg.replica}| >= F(g.n) + 1
    ensures var i, s := p.dst, c.replicas[p.dst];
      && s.view !in g.sent[i] && h == Issued(g, i, s.view, s.startViewChanges + {p.msg.replica})
      && HistoryOk(h) && Grows(g, h, i) && ReplicaOk(h, s.(startViewChanges := {}), i)
  {
    var i, s := p.dst, c.replicas[p.dst];
    assert ReplicaOk(g, s, i) && PacketOk(g, p) && NotYetReceived(s, g, p);
    OneQuorumOnly(g, s, i, p.msg.replica);
    h := IssuedReplicaOk(g, s, i, s.startViewChanges + {p.msg.replica});
  }

  /** What a replica does on a quorum. */
  lemma {:induction false} QuorumEffect(g: History, s: State, i: nat, m: Message)
    requires s.n == g.n && g.n % 2 == 1 && s.id == i && |s.startViewChanges + {m.replica}| >= F(g.n) + 1
    ensures var s' := s.(startViewChanges := {});
      HandleStartViewChange(s, m) ==
        if Primary(g.n, s.view) == i then HandleDoViewChange(s', DoViewChangeMessage(s))
        else Effect(s', [Send(PeerEnd(Primary(g.n, s.view)), DoViewChangeMessage(s))])
  {
    PrimaryIs(g, s, i);
    assert DoViewChangeMessage(s.(startViewChanges := {})) == DoViewChangeMessage(s);
  }

  /** A StartViewChange that completes a quorum. */
  lemma {:induction false} QuorumStep(c: Cluster, c': Cluster, p: Packet, g: History) returns (h: History)
    requires Inv(c, g) && p in c.net && p.msg.command == StartViewChange && p.dst < c.n
    requires CanProcessStartViewChange(c.replicas[p.dst], p.msg)
    requires |c.replicas[p.dst].startViewChanges + {p.msg.replica}| >= F(g.n) + 1
    requires Moved(c, c', p.dst, HandleStartViewChange(c.replicas[p.dst], p.msg), c.net - multiset{p})
    ensures SameLogs(g, h) && Inv(c', h) && Grows(g, h, p.dst)
    ensures p.msg.view !in g.sent[p.dst] && p.msg.view in h.sent[p.dst]
  {
    var i, s := p.dst, c.replicas[p.dst];
    assert ReplicaOk(g, s, i);
    QuorumEffect(g, s, i, p.msg);
    h := QuorumHistory(c, p, g);
    if Primary(g.n, s.view) == i {
      h := IssueAtHome(c, c', p, g, h);
    } else {
      IssueAbroad(c, c', p, g, h);
    }
  }

  lemma {:induction false} StartViewChangeStep(c: Cluster, c': Cluster, p: Packet, g: History) returns (h: History)
    requires Inv(c, g) && p in c.net && p.msg.command == StartViewChange && p.dst < c.n
    requires CanProcessStartViewChange(c.replicas[p.dst], p.msg)
    requires Moved(c, c', p.dst, HandleStartViewChange(c.replicas[p.dst], p.msg), c.net - multiset{p})
    ensures SameLogs(g, h) && Inv(c', h) && Grows(g, h, p.dst)
    ensures IssuesDoViewChange(c, Deliver(p)) ==> p.msg.view !in g.sent[p.dst] && p.msg.view in h.sent[p.dst]
  {
    var i, s := p.dst, c.replicas[p.dst];
    assert ReplicaOk(g, s, i) && PacketOk(g, p) && NotYetReceived(s, g, p);
    PrimaryIs(g, s, i);
    if |s.startViewChanges + {p.msg.replica}| <= F(g.n) {
      h := g;
      CountedOk(g, s, i, p);
      NoteStep(c, c', p, c'.replicas[i], g);
    } else {
      h := QuorumStep(c, c', p, g);
    }
  }

  // Any step

  ghost predicate OnlyTopChanges(g: History, h: History)
    requires Shaped(g) && Shaped(h) && g.n == h.n
  {
    forall j :: 0 <= j < g.n ==> TopChange(g, h, j)
  }

  lemma {:induction false} QuietDelivery(g: History, s: State, p: Packet) returns (h: History)
    requires Ready(g, s, p.dst) && PacketOk(g, p) && CanProcess(s, p.msg) && !Stale(s, p.msg)
    requires !IsChangeMessage(p.msg)
    requires p.msg.command == RecoveryResponse && CompletesRecovery(s, p.msg) ==>
      var best := MostRecent(s.responses + [p.msg]);
      best.view > s.view || best.op >= s.op
    ensures SameLogs(g, h) && QuietStep(g, h, s, p.dst, Dispatch(s, Inbound(PeerEnd(p.src), p.msg)))
  {
    var i, m := p.dst, p.msg;
    var inb := Inbound(PeerEnd(p.src), m);
    h := g;
    GrowsRefl(g, i);
    match m.command
    case Prepare => h := OnPrepare(g, s, i, inb, p);
    case PrepareOk => OnPrepareOk(g, s, i, m);
    case Commit => OnCommit(g, s, i, m);
    case StartView => h := OnStartView(g, s, i, m);
    case RecoveryRequest => OnRecoveryRequest(g, s, i, m);
    case RecoveryResponse => h := OnRecoveryResponse(g, s, i, m);
    case _ =>
  }

  /** Only a client's request makes a log longer. */
  ghost predicate LogsMove(step: Step, g: History, h: History) {
    SameLogs(g, h) || (step.ClientRequest? && exists v :: LogAppended(g, h, v, EntryFor(v, step.m, {})))
  }

  /** What a step of the cluster establishes. */
  ghost predicate StepOk(c: Cluster, step: Step, c': Cluster, g: History, h: History) {
    && Inv(c', h) && Extends(g, h) && OnlyTopChanges(g, h) && LogsMove(step, g, h)
    && (IssuesDoViewChange(c, step) ==>
          && step.p.dst < g.n == h.n
          && step.p.msg.view !in g.sent[step.p.dst] && step.p.msg.view in h.sent[step.p.dst])
  }

  lemma {:induction false} GrownStep(g: History, h: History, i: nat)
    requires Grows(g, h, i)
    ensures Extends(g, h) && OnlyTopChanges(g, h)
  {
    GrowsExtends(g, h, i);
  }

  lemma {:induction false} DeliveryStep(c: Cluster, p: Packet, g: History) returns (h: History)
    requires Inv(c, g) && Enabled(c, Deliver(p)) && RecoversForward(c, Deliver(p))
    ensures StepOk(c, Deliver(p), Next(c, Deliver(p)), g, h)
  {
    var i := p.dst;
    var s, c' := c.replicas[i], Next(c, Deliver(p));
    var e := Dispatch(s, Inbound(PeerEnd(p.src), p.msg));
    assert ReplicaOk(g, s, i) && PacketOk(g, p);
    assert Moved(c, c', i, e, c.net - multiset{p});
    if p.msg.command == StartViewChange {
      h := StartViewChangeStep(c, c', p, g);
    } else if p.msg.command == DoViewChange {
      h := DoViewChangeStep(c, c', p, g);
    } else {
      h := QuietDelivery(g, s, p);
      QuietClusterStep(c, c', i, e, c.net - multiset{p}, g, h);
    }
    GrownStep(g, h, i);
  }

  lemma {:induction false} LoseStep(c: Cluster, p: Packet, g: History)
    requires Inv(c, g) && Enabled(c, Lose(p))
    ensures StepOk(c, Lose(p), Next(c, Lose(p)), g, g)
  {
    LoseInv(c, c.(net := c.net - multiset{p}), g);
    GrowsRefl(g, 0);
    GrownStep(g, g, 0);
  }

  lemma {:induction false} LoseInv(c: Cluster, c': Cluster, g: History)
    requires Inv(c, g) && c' == c.(net := c'.net) && c'.net <= c.net
    ensures Inv(c', g)
  {
    GrowsRefl(g, 0);
    QuietKeepsUnique(c, g, c', g, 0);
    StepKeepsInv(c, g, c', g, 0);
  }

  lemma {:induction false} QuietLocal(c: Cluster, step: Step, g: History, h: History)
    requires Inv(c, g) && Enabled(c, step) && !step.Lose? && !step.Deliver?
    requires var (i, e, net) := Acting(c, step); i < c.n && QuietStep(g, h, c.replicas[i], i, e)
    requires LogsMove(step, g, h)
    ensures StepOk(c, step, Next(c, step), g, h)
  {
    var (i, e, net) := Acting(c, step);
    QuietClusterStep(c, Next(c, step), i, e, net, g, h);
    GrownStep(g, h, i);
  }

  lemma {:induction false} LocalStep(c: Cluster, step: Step, g: History) returns (h: History)
    requires Inv(c, g) && Enabled(c, step) && !step.Lose? && !step.Deliver?
    ensures StepOk(c, step, Next(c, step), g, h)
  {
    var i := Acting(c, step).0;
    if step.LeaveView? {
      h := LeaveViewStep(c, Next(c, step), i, g);
      GrownStep(g, h, i);
    } else {
      h := QuietLocalHistory(c, step, g);
      QuietLocal(c, step, g, h);
    }
  }

  lemma {:induction false} QuietLocalHistory(c: Cluster, step: Step, g: History) returns (h: History)
    requires Inv(c, g) && Enabled(c, step) && !step.Lose? && !step.Deliver? && !step.LeaveView?
    ensures LogsMove(step, g, h)
    ensures var (i, e, net) := Acting(c, step); i < c.n && QuietStep(g, h, c.replicas[i], i, e)
  {
    var i := Acting(c, step).0;
    var s := c.replicas[i];
    assert ReplicaOk(g, s, i);
    h := g;
    match step
    case ClientRequest(_, socket, m) => h := OnRequest(g, s, i, Inbound(ClientEnd(socket), m));
    case Heartbeat(_) => OnHeartbeat(g, s, i);
    case Recover(_, _, nonce) => OnRecover(g, s, i, nonce);
  }

  /** Every step that does not fall back in recovery keeps the invariant. */
  lemma {:induction false} AnyStep(c: Cluster, step: Step, g: History) returns (h: History)
    requires Inv(c, g) && Enabled(c, step) && RecoversForward(c, step)
    ensures StepOk(c, step, Next(c, step), g, h)
  {
    match step
    case Lose(p) =>
      LoseStep(c, p, g);
      h := g;
    case Deliver(p) => h := DeliveryStep(c, p, g);
    case _ => h := LocalStep(c, step, g);
  }
}
