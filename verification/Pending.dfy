/** Whether replicas execute what they know to be committed: exactly when an operation stays
    behind that could be executed. */
module Pending {
  import opened Types
  import opened Execution
  import opened Handlers
  import opened Cluster
  import opened Progress
  import opened Fallback

  /** The replica knows an operation to be committed, has it, and has not executed it. */
  predicate Behind(s: State) {
    s.lastExecuted < s.commit && s.lastExecuted + 1 in s.log
  }

  /** With one more message the collected ones reach the quorum. */
  predicate Quorum(s: State, collected: nat) {
    collected + 1 >= (s.n - 1) / 2 + 1
  }

  /** Handling m lets the replica execute whatever it can: it learns of a higher commit number,
      records an acknowledgement, ends a view change or completes a recovery. */
  predicate LetsExecute(s: State, m: Message) {
    match m.command
    case Prepare | Commit => m.commit > s.commit
    case PrepareOk => m.op in s.log
    case StartViewChange =>
      |s.startViewChanges + {m.replica}| >= (s.n - 1) / 2 + 1 && s.view % s.n == s.id && Quorum(s, |s.doViewChanges|)
    case DoViewChange => Quorum(s, |s.doViewChanges|)
    case StartView => m.body.ok
    case RecoveryResponse => m.body.ok && m.body.nonce == s.nonce && Quorum(s, |s.responses|)
    case _ => false
  }

  /** Handling m appends an operation without a look at what could be executed: a prepare with
      no news of commits, or a new request. */
  predicate AppendsOnly(s: State, m: Message) {
    match m.command
    case Prepare => m.commit <= s.commit
    case Request => m.request > if m.client in s.clients then s.clients[m.client].request else 0
    case _ => false
  }

  /** The replica has executed its whole log and knows of commits beyond it. */
  predicate Overtaken(s: State) {
    s.lastExecuted == s.op < s.commit
  }

  lemma {:induction false} ViewChangeBehind(s: State, m: Message)
    ensures Behind(HandleDoViewChange(s, m).state) <==> !Quorum(s, |s.doViewChanges|) && Behind(s)
  {
    if |s.doViewChanges + [m]| >= s.F() + 1 {
      var u := BecomePrimary(s, s.doViewChanges + [m]);
      assert ExecutesTo(u, Execute(u));
    }
  }

  lemma {:induction false} VotedBehind(s: State, m: Message)
    requires |s.startViewChanges + {m.replica}| >= s.F() + 1
    ensures Behind(HandleStartViewChange(s, m).state) <==>
      !(s.PrimaryIdForView(s.view) == s.id && Quorum(s, |s.doViewChanges|)) && Behind(s)
  {
    var s' := s.(startViewChanges := {});
    ViewChangeBehind(s', DoViewChangeMessage(s'));
  }

  lemma {:induction false} StartViewChangeBehind(s: State, m: Message)
    requires m.command == StartViewChange
    ensures Behind(HandleStartViewChange(s, m).state) <==> !LetsExecute(s, m) && Behind(s)
  {
    assert s.F() == (s.n - 1) / 2;
    if |s.startViewChanges + {m.replica}| >= s.F() + 1 {
      RemainderIsModulo(s.view, s.n);
      VotedBehind(s, m);
    }
  }

  lemma {:induction false} RecoveryBehind(s: State, m: Message)
    requires m.command == RecoveryResponse
    ensures Behind(HandleRecoveryResponse(s, m).state) <==> !LetsExecute(s, m) && Behind(s)
  {
    assert s.F() == (s.n - 1) / 2;
    if CompletesRecovery(s, m) {
      RecoveredIsNotBehind(s, m);
    }
  }

  lemma {:induction false} RecoveredIsNotBehind(s: State, m: Message)
    requires CompletesRecovery(s, m)
    ensures !Behind(HandleRecoveryResponse(s, m).state)
  {
    var e := RecoveredByExecuting(s, m, AdoptResponse(s, MostRecent(s.responses + [m])));
  }

  lemma {:induction false} RecoveredByExecuting(s: State, m: Message, u: State) returns (e: Effect)
    requires CompletesRecovery(s, m) && u == AdoptResponse(s, MostRecent(s.responses + [m]))
    ensures !Behind(e.state) && HandleRecoveryResponse(s, m).state == e.state.(nonce := ZERO128, responses := [])
  {
    e := Execute(u);
  }

  lemma {:induction false} PrepareOkBehind(s: State, m: Message)
    requires CanProcessPrepareOk(s, m)
    ensures Behind(HandlePrepareOk(s, m).state) <==> m.op !in s.log && Behind(s)
  {
    if m.op in s.log {
      var u := AdvanceCommit(s.(log := AddAck(s.log, m.op, m.replica)));
      assert ExecutesTo(u, Execute(u));
    }
  }

  lemma {:induction false} PrepareBehind(s: State, inb: Inbound)
    requires Numbered(s.log, s.op)
    ensures Behind(HandlePrepare(s, inb).state) <==> inb.message.commit <= s.commit && (Behind(s) || Overtaken(s))
  {
    var s' := AppendPrepare(s, inb.message);
    if inb.message.commit > s.commit {
      var u := s'.(commit := inb.message.commit);
      assert ExecutesTo(u, Execute(u));
    }
  }

  lemma {:induction false} RequestBehind(s: State, inb: Inbound)
    requires Numbered(s.log, s.op) && inb.message.command == Request
    ensures Behind(HandleRequest(s, inb).state) <==> Behind(s) || (AppendsOnly(s, inb.message) && Overtaken(s))
  {
  }

  lemma {:induction false} StartViewBehind(s: State, m: Message)
    ensures Behind(HandleStartView(s, m).state) <==> !m.body.ok && Behind(s)
  {
    if m.body.ok {
      var u := AdoptStartView(s, m);
      assert ExecutesTo(u, Execute(u));
    }
  }

  lemma {:induction false} CommitBehind(s: State, m: Message)
    ensures Behind(HandleCommit(s, m).state) <==> m.commit <= s.commit && Behind(s)
  {
    if m.commit > s.commit {
      var u := s.(commit := m.commit);
      assert ExecutesTo(u, Execute(u));
    }
  }

  /** One message, exactly: afterwards an executable operation is left behind if and only if
      the message does not let the replica execute, and one was left behind before or the
      message's operation is the very next one and was known to be committed. */
  lemma {:induction false} BehindExactly(s: State, inb: Inbound)
    requires CanProcess(s, inb.message) && Numbered(s.log, s.op)
    ensures Behind(Dispatch(s, inb).state) <==>
      !LetsExecute(s, inb.message) && (Behind(s) || (AppendsOnly(s, inb.message) && Overtaken(s)))
  {
    var m := inb.message;
    match m.command
    case Request => RequestBehind(s, inb);
    case Prepare => PrepareBehind(s, inb);
    case PrepareOk => PrepareOkBehind(s, m);
    case Commit => CommitBehind(s, m);
    case StartViewChange => StartViewChangeBehind(s, m);
    case DoViewChange => ViewChangeBehind(s, m);
    case StartView => StartViewBehind(s, m);
    case RecoveryResponse => RecoveryBehind(s, m);
    case _ =>
  }

  /** What is not left behind has been executed: everything that is both logged and committed. */
  lemma {:induction false} NothingBehind(s: State)
    requires Numbered(s.log, s.op)
    ensures !Behind(s) <==> s.lastExecuted >= s.commit || s.lastExecuted >= s.op
  {
  }

  /** A backup that hears of a commit number ends with the higher of the two; if that is news,
      everything logged and committed has been executed. */
  lemma {:induction false} BackupsLearn(s: State, inb: Inbound)
    requires inb.message.command in {Prepare, Commit} && CanProcess(s, inb.message) && Numbered(s.log, s.op)
    ensures var t := Dispatch(s, inb).state;
      && t.commit == (if inb.message.commit > s.commit then inb.message.commit else s.commit)
      && t.op == (if inb.message.command == Prepare then s.op + 1 else s.op) && Numbered(t.log, t.op)
      && s.lastExecuted <= t.lastExecuted
      && (inb.message.commit > s.commit ==> t.lastExecuted >= t.commit || t.lastExecuted >= t.op)
  {
    var t := Dispatch(s, inb).state;
    LearnedState(s, inb);
    BehindExactly(s, inb);
    NothingBehind(t);
  }

  lemma {:induction false} LearnedState(s: State, inb: Inbound)
    requires inb.message.command in {Prepare, Commit} && Numbered(s.log, s.op)
    ensures var t := Dispatch(s, inb).state;
      && t.commit == (if inb.message.commit > s.commit then inb.message.commit else s.commit)
      && t.op == (if inb.message.command == Prepare then s.op + 1 else s.op) && Numbered(t.log, t.op)
      && s.lastExecuted <= t.lastExecuted
  {
  }

  // Over runs

  /** The message that the step brings to replica i, if it brings one. */
  function Brought(step: Step, i: nat): seq<Inbound> {
    if step.Deliver? && step.p.dst == i then [Inbound(PeerEnd(step.p.src), step.p.msg)]
    else if step.ClientRequest? && step.i == i then [Inbound(ClientEnd(step.socket), step.m)]
    else []
  }

  /** The step appends at replica i the operation that i already knew to be committed, and
      leaves it there. */
  predicate LeavesBehind(c: Cluster, step: Step, i: nat) {
    && i < |c.replicas| && Brought(step, i) != []
    && var s, m := c.replicas[i], Brought(step, i)[0].message;
    AppendsOnly(s, m) && Overtaken(s)
  }

  lemma {:induction false} StepBehind(c: Cluster, step: Step, i: nat)
    requires Enabled(c, step) && i < |c.replicas| && Numbered(c.replicas[i].log, c.replicas[i].op)
    ensures |Next(c, step).replicas| == |c.replicas|
    ensures Brought(step, i) == [] ==> (Behind(Next(c, step).replicas[i]) <==> Behind(c.replicas[i]))
    ensures Brought(step, i) != [] ==>
      CanProcess(c.replicas[i], Brought(step, i)[0].message) &&
      Next(c, step).replicas[i] == Dispatch(c.replicas[i], Brought(step, i)[0]).state
  {
  }

  /** A replica that is not behind gets behind in exactly these steps. */
  lemma {:induction false} GetsBehindExactly(c: Cluster, step: Step, i: nat)
    requires Enabled(c, step) && i < |c.replicas| && Numbered(c.replicas[i].log, c.replicas[i].op) && !Behind(c.replicas[i])
    ensures |Next(c, step).replicas| == |c.replicas|
    ensures Behind(Next(c, step).replicas[i]) <==> LeavesBehind(c, step, i)
  {
    StepBehind(c, step, i);
    if Brought(step, i) != [] {
      BehindExactly(c.replicas[i], Brought(step, i)[0]);
    }
  }

  lemma {:induction false} NumberedInRun(n: ClusterSize, run: seq<Cluster>, steps: seq<Step>, t: nat, i: nat)
    requires IsRun(n, run, steps) && t < |run| && i < n
    ensures |run[t].replicas| == n && Numbered(run[t].replicas[i].log, run[t].replicas[i].op)
  {
    StatusInRun(n, run, steps, t, i);
    LogsAreNumbered(n, run, steps, t);
    assert ReplicaNumbered(run[t].replicas[i]);
  }

  lemma {:induction false} NeverBehindUpTo(n: ClusterSize, run: seq<Cluster>, steps: seq<Step>, i: nat, t: nat)
    requires IsRun(n, run, steps) && i < n && t < |run| && forall k :: 0 <= k < t ==> !LeavesBehind(run[k], steps[k], i)
    ensures |run[t].replicas| == n && !Behind(run[t].replicas[i])
  {
    if t > 0 {
      NeverBehindUpTo(n, run, steps, i, t - 1);
      NumberedInRun(n, run, steps, t - 1, i);
      assert run[t] == Next(run[t - 1], steps[t - 1]);
      GetsBehindExactly(run[t - 1], steps[t - 1], i);
    }
  }

  ghost predicate EverBehind(run: seq<Cluster>, i: nat) {
    exists t :: 0 <= t < |run| && i < |run[t].replicas| && Behind(run[t].replicas[i])
  }

  /** Over every run, recoveries included and for any cluster size: a replica has at every moment
      executed all that it has logged and knows to be committed, if and only if it never appends
      an operation that its commit number has already overtaken without fresh news of commits. */
  lemma {:induction false} EverBehindExactly(n: ClusterSize, run: seq<Cluster>, steps: seq<Step>, i: nat)
    requires IsRun(n, run, steps) && i < n
    ensures EverBehind(run, i) <==> exists k :: 0 <= k < |steps| && LeavesBehind(run[k], steps[k], i)
  {
    if forall k :: 0 <= k < |steps| ==> !LeavesBehind(run[k], steps[k], i) {
      forall t | 0 <= t < |run| ensures i < |run[t].replicas| ==> !Behind(run[t].replicas[i]) {
        NeverBehindUpTo(n, run, steps, i, t);
      }
    } else {
      var k :| 0 <= k < |steps| && LeavesBehind(run[k], steps[k], i);
      NumberedInRun(n, run, steps, k, i);
      if !Behind(run[k].replicas[i]) {
        assert run[k + 1] == Next(run[k], steps[k]);
        GetsBehindExactly(run[k], steps[k], i);
      }
    }
  }

  /** So a replica whose commit number has never run ahead of its log has executed, at every
      moment, exactly up to what its commit number and its log allow or further. */
  lemma {:induction false} ExecutesWhatIsCommitted(n: ClusterSize, run: seq<Cluster>, steps: seq<Step>, i: nat, t: nat)
    requires IsRun(n, run, steps) && i < n && t < |run|
    requires forall u :: 0 <= u < t && i < |run[u].replicas| ==> run[u].replicas[i].commit <= run[u].replicas[i].op
    ensures |run[t].replicas| == n
    ensures var s := run[t].replicas[i]; s.lastExecuted >= s.commit || s.lastExecuted >= s.op
  {
    forall k | 0 <= k < t ensures !LeavesBehind(run[k], steps[k], i) {
    }
    NeverBehindUpTo(n, run, steps, i, t);
    NumberedInRun(n, run, steps, t, i);
    NothingBehind(run[t].replicas[i]);
  }

  // A run in which an operation is left behind

  const CLIENT := U128(0, 1)

  /** "SET a 1", and what it leads to. */
  const CALL := BLANK.(command := Request, client := CLIENT, request := 1, opType := 1, payload := [97, 32, 49])
  const PREPARED := BLANK.(command := Prepare, op := 1, client := CLIENT, request := 1, opType := 1, payload := [97, 32, 49])
  const ACKNOWLEDGED := BLANK.(command := PrepareOk, op := 1, replica := 2)
  const HEARTBEAT := BLANK.(command := Commit, commit := 1)

  /** A cluster of three that R reaches. */
  ghost predicate Three(R: Reach, c: Cluster) {
    Closed(R) && R(c) && c.n == 3 && |c.replicas| == 3
  }

  /** A step that leaves everybody but replica i alone, and on the network everything but what
      it delivers. */
  lemma {:induction false} Goes(R: Reach, c: Cluster, step: Step, i: nat, e: Effect) returns (c': Cluster)
    requires Three(R, c) && Enabled(c, step) && !step.Lose? && Acting(c, step).0 == i && Acting(c, step).1 == e
    ensures Three(R, c') && i < 3 && c'.replicas == c.replicas[i := e.state]
    ensures forall p :: p in c.net && step != Deliver(p) ==> p in c'.net
    ensures forall o, p :: o in e.sent && p in PacketsOf(i, 3, o) ==> p in c'.net
  {
    c' := Next(c, step);
    forall o, p | o in e.sent && p in PacketsOf(i, 3, o) ensures p in c'.net {
      OutputsArrive(i, c.n, e.sent, o, p);
    }
  }

  /** The operation is logged and announced. */
  lemma {:induction false} Announced(R: Reach, c: Cluster) returns (c': Cluster)
    requires Three(R, c) && c.replicas[0] == InitialState(0, 3)
    ensures Three(R, c') && c'.replicas == c.replicas[0 := AppendRequest(InitialState(0, 3), Inbound(ClientEnd(0), CALL))]
    ensures Packet(0, 1, PREPARED) in c'.net && Packet(0, 2, PREPARED) in c'.net
  {
    var e := HandleRequest(c.replicas[0], Inbound(ClientEnd(0), CALL));
    var o := Broadcast(PREPARED);
    assert e.sent == [o] && o in e.sent;
    assert Packet(0, 1, PREPARED) in PacketsOf(0, 3, o) && Packet(0, 2, PREPARED) in PacketsOf(0, 3, o);
    c' := Goes(R, c, ClientRequest(0, 0, CALL), 0, e);
  }

  /** Replica 2 acknowledges it. */
  lemma {:induction false} AcknowledgedBy2(R: Reach, c: Cluster) returns (c': Cluster)
    requires Three(R, c) && c.replicas[2] == InitialState(2, 3)
    requires Packet(0, 1, PREPARED) in c.net && Packet(0, 2, PREPARED) in c.net
    ensures Three(R, c') && c'.replicas[0] == c.replicas[0] && c'.replicas[1] == c.replicas[1]
    ensures Packet(0, 1, PREPARED) in c'.net && Packet(2, 0, ACKNOWLEDGED) in c'.net
  {
    var e := HandlePrepare(c.replicas[2], Inbound(PeerEnd(0), PREPARED));
    var o := Send(PeerEnd(0), ACKNOWLEDGED);
    assert o in e.sent && Packet(2, 0, ACKNOWLEDGED) in PacketsOf(2, 3, o);
    c' := Goes(R, c, Deliver(Packet(0, 2, PREPARED)), 2, e);
  }

  lemma {:induction false} CommitsFirst(s: State)
    requires s == AppendRequest(InitialState(0, 3), Inbound(ClientEnd(0), CALL))
    ensures CanProcessPrepareOk(s, ACKNOWLEDGED)
    ensures var t := HandlePrepareOk(s, ACKNOWLEDGED).state; t.commit == 1 && t.status == Normal && t.view == 0 && t.id == 0 && t.n == 3
  {
    var s' := s.(log := AddAck(s.log, 1, 2));
    assert s'.log[1].acks == {0, 2} && |{0, 2}| == 2;
    assert s'.F() == 1 && NextIsAcknowledged(s');
    var u := AdvanceCommit(s');
    assert u == AdvanceCommit(s'.(commit := 1));
    assert !NextIsAcknowledged(s'.(commit := 1));
    assert ExecutesTo(u, Execute(u));
  }

  /** The primary commits it. */
  lemma {:induction false} CommittedBy0(R: Reach, c: Cluster) returns (c': Cluster)
    requires Three(R, c) && Packet(0, 1, PREPARED) in c.net && Packet(2, 0, ACKNOWLEDGED) in c.net
    requires c.replicas[0] == AppendRequest(InitialState(0, 3), Inbound(ClientEnd(0), CALL))
    ensures Three(R, c') && c'.replicas[1] == c.replicas[1] && Packet(0, 1, PREPARED) in c'.net
    ensures var s := c'.replicas[0]; s.commit == 1 && s.status == Normal && s.view == 0 && s.id == 0 && s.n == 3
  {
    CommitsFirst(c.replicas[0]);
    c' := Goes(R, c, Deliver(Packet(2, 0, ACKNOWLEDGED)), 0, HandlePrepareOk(c.replicas[0], ACKNOWLEDGED));
  }

  /** Its heartbeat says so. */
  lemma {:induction false} SaidBy0(R: Reach, c: Cluster) returns (c': Cluster)
    requires Three(R, c) && Packet(0, 1, PREPARED) in c.net
    requires var s := c.replicas[0]; s.commit == 1 && s.status == Normal && s.view == 0 && s.id == 0 && s.n == 3
    ensures Three(R, c') && c'.replicas == c.replicas
    ensures Packet(0, 1, PREPARED) in c'.net && Packet(0, 1, HEARTBEAT) in c'.net
  {
    var e := SendCommit(c.replicas[0]);
    var o := Broadcast(HEARTBEAT);
    assert e.sent == [o] && o in e.sent && Packet(0, 1, HEARTBEAT) in PacketsOf(0, 3, o);
    c' := Goes(R, c, Heartbeat(0), 0, e);
  }

  /** Replica 1 hears that first, */
  lemma {:induction false} HeardBy1(R: Reach, c: Cluster) returns (c': Cluster)
    requires Three(R, c) && Packet(0, 1, PREPARED) in c.net && Packet(0, 1, HEARTBEAT) in c.net
    requires c.replicas[1] == InitialState(1, 3)
    ensures Three(R, c') && c'.replicas[1] == InitialState(1, 3).(commit := 1) && Packet(0, 1, PREPARED) in c'.net
  {
    var u := InitialState(1, 3).(commit := 1);
    assert Execute(u) == Effect(u, []);
    c' := Goes(R, c, Deliver(Packet(0, 1, HEARTBEAT)), 1, Effect(u, []));
  }

  /** and only then of the operation. */
  lemma {:induction false} PreparedAt1(R: Reach, c: Cluster) returns (c': Cluster)
    requires Three(R, c) && Packet(0, 1, PREPARED) in c.net && c.replicas[1] == InitialState(1, 3).(commit := 1)
    ensures Three(R, c')
    ensures var s := c'.replicas[1]; s.op == 1 && s.commit == 1 && s.lastExecuted == 0 && 1 in s.log && s.kv == map[]
  {
    var s := c.replicas[1];
    var e := HandlePrepare(s, Inbound(PeerEnd(0), PREPARED));
    assert e.state == AppendPrepare(s, PREPARED);
    c' := Goes(R, c, Deliver(Packet(0, 1, PREPARED)), 1, e);
  }

  lemma {:induction false} LeftBehind(R: Reach) returns (c: Cluster)
    requires Closed(R) && R(InitialCluster(3))
    ensures Three(R, c)
    ensures var s := c.replicas[1]; s.op == 1 && s.commit == 1 && s.lastExecuted == 0 && 1 in s.log && s.kv == map[]
  {
    c := InitialCluster(3);
    c := Announced(R, c);
    c := AcknowledgedBy2(R, c);
    c := CommittedBy0(R, c);
    c := SaidBy0(R, c);
    c := HeardBy1(R, c);
    c := PreparedAt1(R, c);
  }

  /** The condition is needed: when a heartbeat overtakes a prepare, a backup of three ends with
      an operation that it has, knows to be committed and has not executed. */
  lemma {:induction false} HeartbeatOvertakesPrepare() returns (run: seq<Cluster>, steps: seq<Step>)
    ensures IsRun(3, run, steps) && |run[|steps|].replicas| == 3
    ensures var s := run[|steps|].replicas[1]; s.op == 1 && s.commit == 1 && s.lastExecuted == 0 && 1 in s.log && s.kv == map[]
    ensures EverBehind(run, 1)
  {
    ReachedIsClosed(3);
    var c := LeftBehind(c => Reached(3, c));
    run, steps :| EndsIn(3, run, steps, c);
    assert Behind(run[|steps|].replicas[1]);
  }
}
