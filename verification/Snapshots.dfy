/** Every message between replicas reports its sender: what it says of view, operation and
    commit numbers, log and nonce is what the sender's state was when it was sent. */
module Snapshots {
  import opened Types
  import opened Execution
  import opened Handlers
  import opened Cluster
  import opened Progress
  import Laws

  /** What a message says is true of its sender's state s. */
  ghost predicate Reports(s: State, m: Message) {
    match m.command
    case Prepare =>
      && s.status == Normal && m.replica == s.id && m.view == s.view && m.op == s.op && m.commit == s.commit
      && m.op in s.log && s.log[m.op] == LogEntry(m.view, m.opType, m.client, m.request, m.payload, {s.id})
    case PrepareOk => s.status == Normal && m.replica == s.id && m.view == s.view && m.op in s.log
    case Commit => s.status == Normal && m.view == s.view && m.commit == s.commit
    case StartViewChange => s.status == ViewChange && m.replica == s.id && m.view == s.view
    case DoViewChange =>
      && s.status == ViewChange && m.replica == s.id && m.view == s.view && m.op == s.op && m.commit == s.commit
      && m.body.ok && m.body.lastNormalView == s.lastNormalView && Laws.Unacknowledged(m.body.log, s.log)
    case StartView =>
      && s.status == Normal && m.replica == s.id && m.view == s.view && m.op == s.op && m.commit == s.commit
      && m.body.ok && Laws.Unacknowledged(m.body.log, s.log)
    case RecoveryRequest => s.status == Recovery && m.replica == s.id && m.body.ok && m.body.nonce == s.nonce
    case RecoveryResponse =>
      && s.status == Normal && m.replica == s.id && m.view == s.view && m.op == s.op && m.commit == s.commit
      && m.body.ok && Laws.Unacknowledged(m.body.log, s.log)
    case _ => false
  }

  /** Everything in `sent` but replies and pongs reports s. */
  ghost predicate AllReport(s: State, sent: seq<Output>) {
    forall o :: o in sent && o.msg.command != Reply && o.msg.command != Pong ==> Reports(s, o.msg)
  }

  lemma {:induction false} ReportJoin(s: State, a: seq<Output>, b: seq<Output>)
    requires AllReport(s, a) && AllReport(s, b)
    ensures AllReport(s, a + b)
  {
    assert forall o :: o in a + b ==> o in a || o in b;
  }

  lemma {:induction false} RepliesReport(s: State, e: Effect)
    requires ExecutesTo(s, e)
    ensures AllReport(e.state, e.sent)
  {
  }

  /** What is said before execution is still true after it. */
  lemma {:induction false} ReportKept(s: State, e: Effect, m: Message)
    requires ExecutesTo(s, e) && Reports(s, m)
    ensures Reports(e.state, m)
  {
  }

  lemma {:induction false} PrepareReports(s: State, inb: Inbound)
    requires CanProcessPrepare(s, inb.message)
    ensures AllReport(HandlePrepare(s, inb).state, HandlePrepare(s, inb).sent)
  {
    var s' := AppendPrepare(s, inb.message);
    var m := PrepareOkMessage(s', s'.op);
    assert Reports(s', m);
    if inb.message.commit > s'.commit {
      var u := s'.(commit := inb.message.commit);
      assert Reports(u, m);
      ReportKept(u, Execute(u), m);
      RepliesReport(u, Execute(u));
    }
    var learned := LearnCommit(s', inb.message.commit);
    ReportJoin(learned.state, [Send(inb.connection, m)], learned.sent);
  }

  lemma {:induction false} DoViewChangeReports(s: State, m: Message)
    requires s.status == ViewChange
    ensures AllReport(HandleDoViewChange(s, m).state, HandleDoViewChange(s, m).sent)
  {
    var received := s.doViewChanges + [m];
    if |received| >= s.F() + 1 {
      var u := BecomePrimary(s, received);
      assert Reports(u, StartViewMessage(u));
      ReportKept(u, Execute(u), StartViewMessage(u));
      RepliesReport(u, Execute(u));
      ReportJoin(Execute(u).state, [Broadcast(StartViewMessage(u))], Execute(u).sent);
    }
  }

  lemma {:induction false} StartViewChangeReports(s: State, m: Message)
    requires s.status == ViewChange
    ensures AllReport(HandleStartViewChange(s, m).state, HandleStartViewChange(s, m).sent)
  {
    var s' := s.(startViewChanges := {});
    DoViewChangeReports(s', DoViewChangeMessage(s'));
    assert Reports(s', DoViewChangeMessage(s'));
  }

  lemma {:induction false} StartViewReports(s: State, m: Message)
    ensures AllReport(HandleStartView(s, m).state, HandleStartView(s, m).sent)
  {
    if m.body.ok {
      var u := AdoptStartView(s, m);
      var e := Execute(u);
      RepliesReport(u, e);
      OksReport(e.state, m.commit, m.op);
      ReportJoin(e.state, e.sent, RetroactiveOks(e.state, m.commit, m.op));
    }
  }

  lemma {:induction false} OksReport(s: State, lo: nat, hi: nat)
    requires s.status == Normal
    ensures AllReport(s, RetroactiveOks(s, lo, hi))
  {
  }

  lemma {:induction false} PrepareOkReports(s: State, m: Message)
    ensures AllReport(HandlePrepareOk(s, m).state, HandlePrepareOk(s, m).sent)
  {
    if m.op in s.log && s.IsPrimary() {
      var u := AdvanceCommit(s.(log := AddAck(s.log, m.op, m.replica)));
      RepliesReport(u, Execute(u));
    }
  }

  lemma {:induction false} RecoveryReports(s: State, m: Message)
    ensures m.command == RecoveryRequest && CanProcess(s, m) ==>
      AllReport(HandleRecoveryRequest(s, m).state, HandleRecoveryRequest(s, m).sent)
    ensures m.command == RecoveryResponse ==>
      AllReport(HandleRecoveryResponse(s, m).state, HandleRecoveryResponse(s, m).sent)
  {
    if m.command == RecoveryResponse && CompletesRecovery(s, m) {
      var u := AdoptResponse(s, MostRecent(s.responses + [m]));
      assert ExecutesTo(u, Execute(u));
    }
  }

  lemma {:induction false} RequestReports(s: State, inb: Inbound)
    requires CanProcessRequest(s)
    ensures AllReport(HandleRequest(s, inb).state, HandleRequest(s, inb).sent)
  {
  }

  lemma {:induction false} CommitReports(s: State, m: Message)
    ensures AllReport(HandleCommit(s, m).state, HandleCommit(s, m).sent)
  {
    if m.commit > s.commit {
      var u := s.(commit := m.commit);
      RepliesReport(u, Execute(u));
    }
  }

  /** Whatever a handler sends to other replicas reports the state it leaves. */
  lemma {:induction false} HandlerReports(s: State, inb: Inbound)
    requires CanProcess(s, inb.message)
    ensures AllReport(Dispatch(s, inb).state, Dispatch(s, inb).sent)
  {
    match inb.message.command
    case Request => RequestReports(s, inb);
    case Prepare => PrepareReports(s, inb);
    case PrepareOk => PrepareOkReports(s, inb.message);
    case Commit => CommitReports(s, inb.message);
    case StartViewChange => StartViewChangeReports(s, inb.message);
    case DoViewChange => DoViewChangeReports(s, inb.message);
    case StartView => StartViewReports(s, inb.message);
    case RecoveryRequest | RecoveryResponse => RecoveryReports(s, inb.message);
    case _ =>
  }

  lemma {:induction false} ActorReports(c: Cluster, step: Step)
    requires Enabled(c, step) && !step.Lose?
    ensures AllReport(Acting(c, step).1.state, Acting(c, step).1.sent)
  {
    var i := Acting(c, step).0;
    match step
    case Deliver(p) => HandlerReports(c.replicas[i], Inbound(PeerEnd(p.src), p.msg));
    case ClientRequest(_, socket, m) => HandlerReports(c.replicas[i], Inbound(ClientEnd(socket), m));
    case _ =>
  }

  // Over runs

  /** At some moment up to t the sender of p was in a state that p reports. */
  ghost predicate Reported(run: seq<Cluster>, t: nat, p: Packet)
    requires t < |run|
  {
    exists u :: 0 <= u <= t && ReportedAt(run, u, p)
  }

  ghost predicate ReportedAt(run: seq<Cluster>, u: nat, p: Packet)
    requires u < |run|
  {
    p.src < |run[u].replicas| && Reports(run[u].replicas[p.src], p.msg)
  }

  lemma {:induction false} ReportedStill(run: seq<Cluster>, t: nat, p: Packet)
    requires 0 < t < |run| && Reported(run, t - 1, p)
    ensures Reported(run, t, p)
  {
    var u :| 0 <= u <= t - 1 && ReportedAt(run, u, p);
    assert 0 <= u <= t && ReportedAt(run, u, p);
  }

  lemma {:induction false} ReportedNow(run: seq<Cluster>, t: nat, p: Packet)
    requires t < |run| && p.src < |run[t].replicas| && Reports(run[t].replicas[p.src], p.msg)
    ensures Reported(run, t, p)
  {
    assert ReportedAt(run, t, p);
  }

  /** A packet of a kind that reports: anything but a reply or a pong. */
  predicate Reporting(p: Packet) {
    p.msg.command != Reply && p.msg.command != Pong
  }

  lemma {:induction false} NewPacketReports(c: Cluster, step: Step, p: Packet)
    requires Enabled(c, step) && !step.Lose? && Reporting(p)
    requires p in Packets(Acting(c, step).0, c.n, Acting(c, step).1.sent)
    ensures p.src < |Next(c, step).replicas| && Reports(Next(c, step).replicas[p.src], p.msg)
  {
    ActorReports(c, step);
    PacketOrigin(Acting(c, step).0, c.n, Acting(c, step).1.sent, p);
  }

  lemma {:induction false} OldOrNew(c: Cluster, step: Step, p: Packet)
    requires Enabled(c, step) && p in Next(c, step).net && p !in c.net
    ensures !step.Lose? && p in Packets(Acting(c, step).0, c.n, Acting(c, step).1.sent)
  {
  }

  /** The snapshot theorem: in every run of a cluster of any size, recoveries included, every
      message in flight between replicas reports a state its sender was in when, or before,
      it was in flight: view, operation and commit numbers, log and nonce are the sender's own. */
  lemma {:induction false} MessagesAreSnapshots(n: ClusterSize, run: seq<Cluster>, steps: seq<Step>, t: nat, p: Packet)
    requires IsRun(n, run, steps) && t < |run| && p in run[t].net && Reporting(p)
    ensures Reported(run, t, p)
  {
    if t > 0 {
      var c, step := run[t - 1], steps[t - 1];
      assert Enabled(c, step) && run[t] == Next(c, step);
      if p in c.net {
        MessagesAreSnapshots(n, run, steps, t - 1, p);
        ReportedStill(run, t, p);
      } else {
        OldOrNew(c, step, p);
        NewPacketReports(c, step, p);
        ReportedNow(run, t, p);
      }
    }
  }

  // Whose request an answer answers

  /** Step k delivered to p's sender the request that p answers. */
  ghost predicate Answers(steps: seq<Step>, k: nat, p: Packet) {
    && k < |steps| && steps[k].Deliver? && steps[k].p.dst == p.src && steps[k].p.msg.command == RecoveryRequest
    && steps[k].p.msg.replica == p.dst && steps[k].p.msg.body.nonce == p.msg.body.nonce
  }

  lemma {:induction false} OnlyRequestsAnswered(s: State, inb: Inbound, o: Output)
    requires CanProcess(s, inb.message) && o in Dispatch(s, inb).sent && o.msg.command == RecoveryResponse
    ensures inb.message.command == RecoveryRequest && o.msg.body.nonce == inb.message.body.nonce
    ensures o == Send(PeerEnd(inb.message.replica), o.msg)
  {
    match inb.message.command
    case RecoveryRequest =>
    case StartViewChange => NoAnswerToVote(s, inb.message, o);
    case DoViewChange => NoAnswerToReport(s, inb.message, o);
    case StartView => NoAnswerToStart(s, inb.message, o);
    case Prepare => NoAnswerToPrepare(s, inb, o);
    case _ => NoOtherAnswer(s, inb, o);
  }

  lemma {:induction false} NoOtherAnswer(s: State, inb: Inbound, o: Output)
    requires o in Dispatch(s, inb).sent
    requires inb.message.command !in {RecoveryRequest, StartViewChange, DoViewChange, StartView, Prepare}
    ensures o.msg.command != RecoveryResponse
  {
  }

  lemma {:induction false} NoAnswerToPrepare(s: State, inb: Inbound, o: Output)
    requires o in HandlePrepare(s, inb).sent
    ensures o.msg.command != RecoveryResponse
  {
  }

  lemma {:induction false} NoAnswerToStart(s: State, m: Message, o: Output)
    requires o in HandleStartView(s, m).sent
    ensures o.msg.command != RecoveryResponse
  {
  }

  lemma {:induction false} NoAnswerToReport(s: State, m: Message, o: Output)
    requires o in HandleDoViewChange(s, m).sent
    ensures o.msg.command != RecoveryResponse
  {
  }

  lemma {:induction false} NoAnswerToVote(s: State, m: Message, o: Output)
    requires o in HandleStartViewChange(s, m).sent
    ensures o.msg.command != RecoveryResponse
  {
    var s' := s.(startViewChanges := {});
    if o in HandleDoViewChange(s', DoViewChangeMessage(s')).sent {
      NoAnswerToReport(s', DoViewChangeMessage(s'), o);
    }
  }

  lemma {:induction false} NewAnswer(c: Cluster, step: Step, p: Packet)
    requires Enabled(c, step) && !step.Lose? && p.msg.command == RecoveryResponse
    requires p in Packets(Acting(c, step).0, c.n, Acting(c, step).1.sent)
    ensures Answers([step], 0, p)
  {
    var (i, e, net) := Acting(c, step);
    PacketOrigin(i, c.n, e.sent, p);
    var o :| o in e.sent && o.msg == p.msg && p in PacketsOf(i, c.n, o);
    if step.Deliver? {
      AnswerTo(c.replicas[i], step.p, o, p, c.n);
    } else {
      NoAnswerWithoutRequest(c, step, o);
    }
  }

  lemma {:induction false} NoAnswerWithoutRequest(c: Cluster, step: Step, o: Output)
    requires Enabled(c, step) && !step.Lose? && !step.Deliver? && o in Acting(c, step).1.sent
    ensures o.msg.command != RecoveryResponse
  {
  }

  lemma {:induction false} AnswerTo(s: State, q: Packet, o: Output, p: Packet, n: ClusterSize)
    requires CanProcess(s, q.msg) && o in Dispatch(s, Inbound(PeerEnd(q.src), q.msg)).sent
    requires o.msg.command == RecoveryResponse && o.msg == p.msg && p in PacketsOf(q.dst, n, o)
    ensures Answers([Deliver(q)], 0, p)
  {
    OnlyRequestsAnswered(s, Inbound(PeerEnd(q.src), q.msg), o);
  }

  /** Every recovery response in flight answers a request that was delivered to its sender, by
      the replica it goes to, under that request's nonce. */
  lemma {:induction false} ResponsesAnswerRequests(n: ClusterSize, run: seq<Cluster>, steps: seq<Step>, t: nat, p: Packet)
    requires IsRun(n, run, steps) && t < |run| && p in run[t].net && p.msg.command == RecoveryResponse
    ensures exists k :: 0 <= k < t && Answers(steps, k, p)
  {
    if t > 0 {
      var c, step := run[t - 1], steps[t - 1];
      assert Enabled(c, step) && run[t] == Next(c, step);
      if p in c.net {
        ResponsesAnswerRequests(n, run, steps, t - 1, p);
        var k :| 0 <= k < t - 1 && Answers(steps, k, p);
        assert Answers(steps, k, p);
      } else {
        OldOrNew(c, step, p);
        NewAnswer(c, step, p);
        assert Answers(steps, t - 1, p);
      }
    }
  }
}
