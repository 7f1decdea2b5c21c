/** What holds of every replica in every run, whatever the cluster size and however
    recoveries end: views never go back, the status moves along a fixed graph, and
    every log is numbered 1..op without gaps. */
module Progress {
  import opened Types
  import opened Execution
  import opened Handlers
  import opened Cluster

  /** Throughout a view change the last normal view is behind, and every recovery
      response a replica has stored is at least as recent as its own view. */
  ghost predicate StatusOk(s: State) {
    && (s.status == ViewChange ==> s.lastNormalView < s.view)
    && (s.status == Recovery ==> forall a :: 0 <= a < |s.responses| ==> s.view <= s.responses[a].view)
  }

  /** The status graph: a view change and a recovery both start from the normal state,
      and a view change always moves to the next view. */
  ghost predicate Advances(s: State, t: State) {
    && s.view <= t.view
    && (t.status == ViewChange && (s.status != ViewChange || s.view != t.view) ==>
          s.status == Normal && t.view == s.view + 1 && t.lastNormalView == s.view)
    && (t.status == Recovery && s.status != Recovery ==> s.status == Normal && t.view == s.view)
    && (s.status != Recovery && t.status == Normal ==> t.view == s.view)
    && (s.status == Recovery && t.status == Recovery ==> t.view == s.view)
  }

  lemma {:induction false} MostRecentAtLeast(ms: seq<Message>, v: nat)
    requires ms != [] && forall a :: 0 <= a < |ms| ==> v <= ms[a].view
    ensures v <= MostRecent(ms).view
  {
    var k := |ms| - 1;
    if k > 0 {
      MostRecentAtLeast(ms[..k], v);
    }
  }

  lemma {:induction false} ExecutionAdvances(s: State, s': State, e: Effect)
    requires StatusOk(s') && Advances(s, s') && ExecutesTo(s', e)
    ensures StatusOk(e.state) && Advances(s, e.state)
  {
  }

  lemma {:induction false} DoViewChangeAdvances(s: State, m: Message)
    requires StatusOk(s) && s.status == ViewChange
    ensures StatusOk(HandleDoViewChange(s, m).state) && Advances(s, HandleDoViewChange(s, m).state)
  {
    var s' := BecomePrimary(s, s.doViewChanges + [m]);
    ExecutionAdvances(s, s', Execute(s'));
  }

  lemma {:induction false} StartViewChangeAdvances(s: State, m: Message)
    requires StatusOk(s) && s.status == ViewChange
    ensures StatusOk(HandleStartViewChange(s, m).state) && Advances(s, HandleStartViewChange(s, m).state)
  {
    var s' := s.(startViewChanges := {});
    DoViewChangeAdvances(s', DoViewChangeMessage(s'));
  }

  lemma {:induction false} StartViewAdvances(s: State, m: Message)
    requires StatusOk(s) && CanProcessStartView(s, m)
    ensures StatusOk(HandleStartView(s, m).state) && Advances(s, HandleStartView(s, m).state)
  {
    ExecutionAdvances(s, AdoptStartView(s, m), Execute(AdoptStartView(s, m)));
  }

  lemma {:induction false} RecoveryResponseAdvances(s: State, m: Message)
    requires StatusOk(s) && s.status == Recovery && s.view <= m.view
    ensures StatusOk(HandleRecoveryResponse(s, m).state) && Advances(s, HandleRecoveryResponse(s, m).state)
  {
    if CompletesRecovery(s, m) {
      MostRecentAtLeast(s.responses + [m], s.view);
      var s' := AdoptResponse(s, MostRecent(s.responses + [m]));
      ExecutionAdvances(s, s', Execute(s'));
    }
  }

  /** Normal operation leaves view and status alone. */
  lemma {:induction false} NormalAdvances(s: State, inb: Inbound)
    requires StatusOk(s) && s.status == Normal
    requires inb.message.command in {Request, Prepare, PrepareOk, Commit}
    ensures StatusOk(Dispatch(s, inb).state) && Advances(s, Dispatch(s, inb).state)
  {
  }

  lemma {:induction false} HandlerAdvances(s: State, inb: Inbound)
    requires StatusOk(s) && CanProcess(s, inb.message) && !Stale(s, inb.message)
    ensures StatusOk(Dispatch(s, inb).state) && Advances(s, Dispatch(s, inb).state)
  {
    var m := inb.message;
    match m.command
    case StartViewChange => StartViewChangeAdvances(s, m);
    case DoViewChange => DoViewChangeAdvances(s, m);
    case StartView => StartViewAdvances(s, m);
    case RecoveryResponse => RecoveryResponseAdvances(s, m);
    case Request | Prepare | PrepareOk | Commit => NormalAdvances(s, inb);
    case _ =>
  }

  lemma {:induction false} StepAdvances(c: Cluster, step: Step, i: nat)
    requires Enabled(c, step) && i < |c.replicas| && StatusOk(c.replicas[i])
    ensures |Next(c, step).replicas| == |c.replicas|
    ensures StatusOk(Next(c, step).replicas[i]) && Advances(c.replicas[i], Next(c, step).replicas[i])
  {
    match step
    case Deliver(p) => if p.dst == i { HandlerAdvances(c.replicas[i], Inbound(PeerEnd(p.src), p.msg)); }
    case ClientRequest(j, socket, m) => if j == i { HandlerAdvances(c.replicas[i], Inbound(ClientEnd(socket), m)); }
    case _ =>
  }

  lemma {:induction false} StatusInRun(n: ClusterSize, run: seq<Cluster>, steps: seq<Step>, t: nat, i: nat)
    requires IsRun(n, run, steps) && t < |run| && i < n
    ensures |run[t].replicas| == n && StatusOk(run[t].replicas[i])
  {
    if t > 0 {
      StatusInRun(n, run, steps, t - 1, i);
      assert run[t] == Next(run[t - 1], steps[t - 1]);
      StepAdvances(run[t - 1], steps[t - 1], i);
    }
  }

  /** Views never decrease over a run, recoveries included. */
  lemma {:induction false} ViewsNeverDecrease(n: ClusterSize, run: seq<Cluster>, steps: seq<Step>, t: nat, u: nat, i: nat)
    requires IsRun(n, run, steps) && t <= u < |run| && i < n
    ensures |run[t].replicas| == |run[u].replicas| == n
    ensures run[t].replicas[i].view <= run[u].replicas[i].view
    ensures run[t].replicas[i].view == run[u].replicas[i].view && run[u].replicas[i].status == ViewChange ==>
              run[t].replicas[i].status == ViewChange
    decreases u - t
  {
    StatusInRun(n, run, steps, t, i);
    if t < u {
      assert run[t + 1] == Next(run[t], steps[t]);
      StepAdvances(run[t], steps[t], i);
      ViewsNeverDecrease(n, run, steps, t + 1, u, i);
    }
  }

  /** The step makes replica i primary of the view it was waiting to lead. */
  ghost predicate Activates(c: Cluster, c': Cluster, i: nat, v: nat) {
    && i < |c.replicas| && i < |c'.replicas|
    && c.replicas[i].status == ViewChange && c.replicas[i].view == v
    && c'.replicas[i].status == Normal && c'.replicas[i].view == v
  }

  /** A replica leaves the view change into one view at most once. */
  lemma {:induction false} ActivatedOnce(n: ClusterSize, run: seq<Cluster>, steps: seq<Step>, t: nat, u: nat, i: nat, v: nat)
    requires IsRun(n, run, steps) && t < u < |steps| && i < n
    requires Activates(run[t], run[t + 1], i, v)
    ensures !Activates(run[u], run[u + 1], i, v)
  {
    ViewsNeverDecrease(n, run, steps, t + 1, u, i);
  }

  // Execution

  /** Only completing a recovery lowers what a replica has executed. */
  lemma {:induction false} ExecutedGrows(c: Cluster, step: Step, i: nat)
    requires Enabled(c, step) && i < |c.replicas|
    requires !(step.Deliver? && step.p.dst == i && step.p.msg.command == RecoveryResponse
               && CompletesRecovery(c.replicas[i], step.p.msg))
    ensures c.replicas[i].lastExecuted <= Next(c, step).replicas[i].lastExecuted
  {
    if step.Deliver? && step.p.dst == i {
      var s, inb := c.replicas[i], Inbound(PeerEnd(step.p.src), step.p.msg);
      match step.p.msg.command
      case StartViewChange => assert Dispatch(s, inb) == HandleStartViewChange(s, step.p.msg);
      case _ =>
    }
  }

  // Numbering of logs

  /** The log has exactly the operations 1..op. */
  ghost predicate Numbered(log: Log, op: nat) {
    forall k :: k in log <==> 1 <= k <= op
  }

  predicate CarriesLog(m: Message) {
    m.command == DoViewChange || m.command == StartView || m.command == RecoveryResponse
  }

  ghost predicate MessageNumbered(m: Message) {
    m.body.ok && Numbered(m.body.log, m.op)
  }

  ghost predicate ReplicaNumbered(s: State) {
    && Numbered(s.log, s.op)
    && (forall a :: 0 <= a < |s.doViewChanges| ==> MessageNumbered(s.doViewChanges[a]))
    && (forall a :: 0 <= a < |s.responses| ==> MessageNumbered(s.responses[a]))
  }

  ghost predicate OutputsNumbered(outs: seq<Output>) {
    forall o :: o in outs && CarriesLog(o.msg) ==> MessageNumbered(o.msg)
  }

  lemma {:induction false} BestOfIsOne(ms: seq<Message>)
    requires ms != []
    ensures BestOf(ms) in ms
  {
    if |ms| > 1 {
      BestOfIsOne(ms[..|ms| - 1]);
    }
  }

  lemma {:induction false} MostRecentIsIn(ms: seq<Message>)
    requires ms != []
    ensures MostRecent(ms) in ms
  {
    if |ms| > 1 {
      MostRecentIsIn(ms[..|ms| - 1]);
    }
  }

  lemma {:induction false} ExecutionNumbered(s: State, e: Effect)
    requires ReplicaNumbered(s) && ExecutesTo(s, e)
    ensures ReplicaNumbered(e.state) && OutputsNumbered(e.sent)
  {
  }

  lemma {:induction false} OutputsJoined(a: seq<Output>, b: seq<Output>)
    requires OutputsNumbered(a) && OutputsNumbered(b)
    ensures OutputsNumbered(a + b)
  {
    assert forall o :: o in a + b ==> o in a || o in b;
  }

  lemma {:induction false} BecomePrimaryNumbered(s: State, ms: seq<Message>)
    requires ReplicaNumbered(s) && ms != [] && forall a :: 0 <= a < |ms| ==> MessageNumbered(ms[a])
    ensures ReplicaNumbered(BecomePrimary(s, ms))
  {
    BestOfIsOne(ms);
  }

  lemma {:induction false} DoViewChangeNumbered(s: State, m: Message)
    requires ReplicaNumbered(s) && MessageNumbered(m)
    ensures ReplicaNumbered(HandleDoViewChange(s, m).state) && OutputsNumbered(HandleDoViewChange(s, m).sent)
  {
    var ms := s.doViewChanges + [m];
    if |ms| >= s.F() + 1 {
      var s' := BecomePrimary(s, ms);
      BecomePrimaryNumbered(s, ms);
      ExecutionNumbered(s', Execute(s'));
      OutputsJoined([Broadcast(StartViewMessage(s'))], Execute(s').sent);
    }
  }

  lemma {:induction false} StartViewChangeNumbered(s: State, m: Message)
    requires ReplicaNumbered(s)
    ensures ReplicaNumbered(HandleStartViewChange(s, m).state) && OutputsNumbered(HandleStartViewChange(s, m).sent)
  {
    var s' := s.(startViewChanges := {});
    assert MessageNumbered(DoViewChangeMessage(s'));
    DoViewChangeNumbered(s', DoViewChangeMessage(s'));
  }

  lemma {:induction false} StartViewNumbered(s: State, m: Message)
    requires ReplicaNumbered(s) && MessageNumbered(m)
    ensures ReplicaNumbered(HandleStartView(s, m).state) && OutputsNumbered(HandleStartView(s, m).sent)
  {
    var s' := AdoptStartView(s, m);
    var e := Execute(s');
    ExecutionNumbered(s', e);
    OutputsJoined(e.sent, RetroactiveOks(e.state, m.commit, m.op));
  }

  lemma {:induction false} RecoveryResponseNumbered(s: State, m: Message)
    requires ReplicaNumbered(s) && MessageNumbered(m)
    ensures ReplicaNumbered(HandleRecoveryResponse(s, m).state)
    ensures OutputsNumbered(HandleRecoveryResponse(s, m).sent)
  {
    var ms := s.responses + [m];
    if CompletesRecovery(s, m) {
      MostRecentIsIn(ms);
      var s' := AdoptResponse(s, MostRecent(ms));
      assert ReplicaNumbered(s');
      ExecutionNumbered(s', Execute(s'));
    }
  }

  /** A new operation gets the next number. */
  lemma {:induction false} RequestNumbered(s: State, inb: Inbound)
    requires ReplicaNumbered(s)
    ensures ReplicaNumbered(HandleRequest(s, inb).state) && OutputsNumbered(HandleRequest(s, inb).sent)
  {
  }

  lemma {:induction false} LearnCommitNumbered(s: State, commit: nat)
    requires ReplicaNumbered(s)
    ensures ReplicaNumbered(LearnCommit(s, commit).state) && OutputsNumbered(LearnCommit(s, commit).sent)
  {
    if commit > s.commit {
      ExecutionNumbered(s.(commit := commit), Execute(s.(commit := commit)));
    }
  }

  lemma {:induction false} PrepareNumbered(s: State, inb: Inbound)
    requires ReplicaNumbered(s)
    ensures ReplicaNumbered(HandlePrepare(s, inb).state) && OutputsNumbered(HandlePrepare(s, inb).sent)
  {
    var s' := AppendPrepare(s, inb.message);
    assert ReplicaNumbered(s');
    LearnCommitNumbered(s', inb.message.commit);
    OutputsJoined([Send(inb.connection, PrepareOkMessage(s', s'.op))], LearnCommit(s', inb.message.commit).sent);
  }

  lemma {:induction false} PrepareOkNumbered(s: State, m: Message)
    requires ReplicaNumbered(s)
    ensures ReplicaNumbered(HandlePrepareOk(s, m).state) && OutputsNumbered(HandlePrepareOk(s, m).sent)
  {
    if m.op in s.log {
      var s' := s.(log := AddAck(s.log, m.op, m.replica));
      assert ReplicaNumbered(s');
      ExecutionNumbered(AdvanceCommit(s'), Execute(AdvanceCommit(s')));
    }
  }

  lemma {:induction false} HandlerNumbered(s: State, inb: Inbound)
    requires ReplicaNumbered(s) && CanProcess(s, inb.message)
    requires CarriesLog(inb.message) ==> MessageNumbered(inb.message)
    ensures ReplicaNumbered(Dispatch(s, inb).state) && OutputsNumbered(Dispatch(s, inb).sent)
  {
    var m := inb.message;
    match m.command
    case Request => RequestNumbered(s, inb);
    case Prepare => PrepareNumbered(s, inb);
    case PrepareOk => PrepareOkNumbered(s, m);
    case StartViewChange => StartViewChangeNumbered(s, m);
    case DoViewChange => DoViewChangeNumbered(s, m);
    case StartView => StartViewNumbered(s, m);
    case RecoveryResponse => RecoveryResponseNumbered(s, m);
    case _ =>
  }

  ghost predicate ClusterNumbered(c: Cluster) {
    && (forall i :: 0 <= i < |c.replicas| ==> ReplicaNumbered(c.replicas[i]))
    && (forall p :: p in c.net && CarriesLog(p.msg) ==> MessageNumbered(p.msg))
  }

  lemma {:induction false} ActorNumbered(c: Cluster, step: Step)
    requires ClusterNumbered(c) && Enabled(c, step) && !step.Lose?
    ensures ReplicaNumbered(Acting(c, step).1.state) && OutputsNumbered(Acting(c, step).1.sent)
  {
    var i := Acting(c, step).0;
    assert ReplicaNumbered(c.replicas[i]);
    match step
    case Deliver(p) => HandlerNumbered(c.replicas[i], Inbound(PeerEnd(p.src), p.msg));
    case ClientRequest(_, socket, m) => HandlerNumbered(c.replicas[i], Inbound(ClientEnd(socket), m));
    case _ =>
  }

  lemma {:induction false} PacketNumbered(src: nat, n: ClusterSize, outs: seq<Output>, p: Packet)
    requires OutputsNumbered(outs) && p in Packets(src, n, outs) && CarriesLog(p.msg)
    ensures MessageNumbered(p.msg)
  {
    PacketOrigin(src, n, outs, p);
  }

  lemma {:induction false} StepNumbered(c: Cluster, step: Step)
    requires ClusterNumbered(c) && Enabled(c, step)
    ensures ClusterNumbered(Next(c, step))
  {
    if !step.Lose? {
      var (i, e, net) := Acting(c, step);
      ActorNumbered(c, step);
      forall p | p in Next(c, step).net && CarriesLog(p.msg) ensures MessageNumbered(p.msg) {
        if p !in c.net {
          PacketNumbered(i, c.n, e.sent, p);
        }
      }
    }
  }

  /** Log shape: every log of every replica, and every log in flight, has exactly the
      operations 1..op, at every moment of every run. */
  lemma {:induction false} LogsAreNumbered(n: ClusterSize, run: seq<Cluster>, steps: seq<Step>, t: nat)
    requires IsRun(n, run, steps) && t < |run|
    ensures ClusterNumbered(run[t])
  {
    if t > 0 {
      LogsAreNumbered(n, run, steps, t - 1);
      assert run[t] == Next(run[t - 1], steps[t - 1]);
      StepNumbered(run[t - 1], steps[t - 1]);
    }
  }
}
