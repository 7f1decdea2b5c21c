/** Every replica's map is the sequential replay of what it has executed, when no
    request is submitted twice and no replica goes through recovery. */
module ClusterReplay {
  import opened Types
  import opened Execution
  import opened Handlers
  import opened Cluster
  import opened History
  import opened Invariant
  import opened Preservation
  import opened Steps
  import opened Progress
  import opened Safety
  import opened Replays
  import ThreeReplicas

  /** No request is submitted twice. */
  ghost predicate OneSubmissionEach(steps: seq<Step>) {
    forall a, b :: 0 <= a < b < |steps| && steps[a].ClientRequest? && steps[b].ClientRequest? ==>
      !(steps[a].m.client == steps[b].m.client && steps[a].m.request == steps[b].m.request)
  }

  /** A run of an odd-sized cluster in which no replica begins a recovery. */
  ghost predicate WithoutRecovery(n: ClusterSize, run: seq<Cluster>, steps: seq<Step>) {
    n % 2 == 1 && IsRun(n, run, steps) && forall k :: 0 <= k < |steps| ==> !steps[k].Recover?
  }

  /** A run without recoveries or resubmissions. */
  ghost predicate PlainRun(n: ClusterSize, run: seq<Cluster>, steps: seq<Step>) {
    WithoutRecovery(n, run, steps) && OneSubmissionEach(steps)
  }

  // Without recoveries

  ghost predicate NobodyRecovers(c: Cluster) {
    forall i :: 0 <= i < |c.replicas| ==> c.replicas[i].status != Recovery
  }

  lemma {:induction false} NobodyRecoversStep(c: Cluster, step: Step)
    requires Enabled(c, step) && !step.Recover? && NobodyRecovers(c)
    ensures NobodyRecovers(Next(c, step)) && RecoversForward(c, step)
  {
    match step
    case Deliver(p) => ThreeReplicas.StaysOutOfRecovery(c.replicas[p.dst], Inbound(PeerEnd(p.src), p.msg));
    case ClientRequest(i, socket, m) => ThreeReplicas.StaysOutOfRecovery(c.replicas[i], Inbound(ClientEnd(socket), m));
    case _ =>
  }

  lemma {:induction false} NobodyRecoversInRun(n: ClusterSize, run: seq<Cluster>, steps: seq<Step>, t: nat)
    requires WithoutRecovery(n, run, steps) && t < |run|
    ensures NobodyRecovers(run[t])
  {
    if t > 0 {
      NobodyRecoversInRun(n, run, steps, t - 1);
      assert run[t] == Next(run[t - 1], steps[t - 1]);
      NobodyRecoversStep(run[t - 1], steps[t - 1]);
    }
  }

  /** Without recoveries, every run has all the safety properties. */
  lemma {:induction false} WithoutRecoveryIsSafe(n: ClusterSize, run: seq<Cluster>, steps: seq<Step>)
    requires WithoutRecovery(n, run, steps)
    ensures SafeRun(n, run, steps)
  {
    forall k | 0 <= k < |steps| ensures RecoversForward(run[k], steps[k]) {
      NobodyRecoversInRun(n, run, steps, k);
      NobodyRecoversStep(run[k], steps[k]);
    }
  }

  // The requests in the logs are all different

  /** Whether a request was submitted in the first t steps. */
  ghost predicate Submitted(steps: seq<Step>, t: nat, client: U128, request: nat) {
    exists a :: 0 <= a < t && a < |steps| && steps[a].ClientRequest?
                && steps[a].m.client == client && steps[a].m.request == request
  }

  ghost predicate LogDiffers(l: seq<LogEntry>) {
    forall a, b :: 0 <= a < b < |l| ==> !(l[a].client == l[b].client && l[a].request == l[b].request)
  }

  ghost predicate LogSubmitted(steps: seq<Step>, t: nat, l: seq<LogEntry>) {
    forall a :: 0 <= a < |l| ==> Submitted(steps, t, l[a].client, l[a].request)
  }

  /** In every view's log all requests are different, and all were submitted. */
  ghost predicate LogsDiffer(steps: seq<Step>, t: nat, g: History) {
    forall v :: 0 <= v < |g.views| ==> LogDiffers(g.views[v].log) && LogSubmitted(steps, t, g.views[v].log)
  }

  lemma {:induction false} SubmittedLater(steps: seq<Step>, t: nat, l: seq<LogEntry>)
    requires LogSubmitted(steps, t, l)
    ensures LogSubmitted(steps, t + 1, l)
  {
    forall a | 0 <= a < |l| ensures Submitted(steps, t + 1, l[a].client, l[a].request) {
      assert Submitted(steps, t, l[a].client, l[a].request);
    }
  }

  lemma {:induction false} AppendDiffers(steps: seq<Step>, t: nat, l: seq<LogEntry>, v: nat)
    requires OneSubmissionEach(steps) && t < |steps| && steps[t].ClientRequest?
    requires LogDiffers(l) && LogSubmitted(steps, t, l)
    ensures var l' := l + [EntryFor(v, steps[t].m, {})]; LogDiffers(l') && LogSubmitted(steps, t + 1, l')
  {
    var e := EntryFor(v, steps[t].m, {});
    SubmittedLater(steps, t, l);
    assert Submitted(steps, t + 1, e.client, e.request);
    forall a | 0 <= a < |l| ensures !(l[a].client == e.client && l[a].request == e.request) {
      assert Submitted(steps, t, l[a].client, l[a].request);
    }
  }

  lemma {:induction false} LogsDifferStep(steps: seq<Step>, t: nat, g: History, h: History)
    requires OneSubmissionEach(steps) && t < |steps| && LogsMove(steps[t], g, h) && LogsDiffer(steps, t, g)
    ensures LogsDiffer(steps, t + 1, h)
  {
    forall v | 0 <= v < |h.views| ensures LogDiffers(h.views[v].log) && LogSubmitted(steps, t + 1, h.views[v].log) {
      if SameLogs(g, h) {
        var w := if v < |g.views| then v else v - 1;
        SubmittedLater(steps, t, g.views[w].log);
        assert h.views[v].log <= g.views[w].log;
      } else {
        var w: nat :| LogAppended(g, h, w, EntryFor(w, steps[t].m, {}));
        SubmittedLater(steps, t, g.views[v].log);
        AppendDiffers(steps, t, g.views[w].log, w);
      }
    }
  }

  lemma {:induction false} HeldLogDiffers(s: State, l: seq<LogEntry>)
    requires HoldsPrefix(s.log, s.op, l) && LogDiffers(l)
    ensures Distinct(s.log)
  {
    forall a, b | a in s.log && b in s.log && s.log[a].client == s.log[b].client && s.log[a].request == s.log[b].request
      ensures a == b
    {
      assert s.log[a].Bare() == l[a - 1] && s.log[b].Bare() == l[b - 1];
    }
  }

  // A step keeps every replica faithful

  /** A replica's log is never of an earlier view than before. */
  lemma {:induction false} ViewsOrdered(c: Cluster, c': Cluster, g: History, h: History, i: nat)
    requires Inv(c, g) && Inv(c', h) && Extends(g, h) && i < c.n
    ensures c'.n == c.n && HistoryOk(h) && LogView(c.replicas[i]) <= LogView(c'.replicas[i]) < |h.views|
    ensures LogView(c.replicas[i]) == LogView(c'.replicas[i]) ==> c.replicas[i].op <= c'.replicas[i].op
  {
    assert ReplicaOk(g, c.replicas[i], i) && ReplicaOk(h, c'.replicas[i], i);
  }

  lemma {:induction false} ExecutedKept(c: Cluster, c': Cluster, g: History, h: History, i: nat, k: nat)
    requires Inv(c, g) && Inv(c', h) && Extends(g, h) && i < c.n && 1 <= k <= c.replicas[i].lastExecuted
    ensures c'.n == c.n && k in c.replicas[i].log && k in c'.replicas[i].log
    ensures c.replicas[i].log[k].Bare() == c'.replicas[i].log[k].Bare()
  {
    ViewsOrdered(c, c', g, h, i);
    PlacedNow(c, g, i);
    PlacedLater(c.replicas[i], g, h);
    PlacedNow(c', h, i);
    SameExecuted(h, c.replicas[i], c'.replicas[i], k);
  }

  lemma {:induction false} SameExecuted(h: History, s: State, t: State, k: nat)
    requires HistoryOk(h) && Placed(s, h) && Placed(t, h) && LogView(s) <= LogView(t) && 1 <= k <= s.lastExecuted
    requires LogView(s) == LogView(t) ==> s.op <= t.op
    ensures k in s.log && k in t.log && s.log[k].Bare() == t.log[k].Bare()
  {
    SameCommitted(h, s.lastExecuted, LogView(s), LogView(t), k);
    CommittedAgree(h, s.lastExecuted, LogView(s), LogView(t));
  }

  /** `o` answers one of the operations executed on the way from s to t, with the result
      that operation has when the log is replayed over `base`. */
  ghost predicate NewResult(s: State, t: State, o: Output, base: KvMap) {
    exists k :: s.lastExecuted < k <= t.lastExecuted && ReplyOver(t, o, k, base)
  }

  /** Every operation executed on the way from s to e's state is answered, if the replica
      is a primary connected to its client. */
  ghost predicate AllAnswered(s: State, e: Effect, base: KvMap) {
    forall k :: s.lastExecuted < k <= e.state.lastExecuted && Connected(e.state, k) ==> Answered(e.state, e.sent, k, base)
  }

  /** What has been executed on the way from s to e's state is answered, and nothing else. */
  ghost predicate AnswersExactly(s: State, e: Effect, base: KvMap) {
    && (forall o :: o in e.sent && o.msg.command == Reply ==> NewResult(s, e.state, o, base))
    && AllAnswered(s, e, base)
  }

  lemma {:induction false} RanAnswers(b: State, e: Effect, base: KvMap)
    requires FaithfulOver(b, base) && RunsFrom(b, e) && Distinct(b.log)
    ensures AllAnswered(b, e, base)
  {
    forall k | b.lastExecuted < k <= e.state.lastExecuted && Connected(e.state, k) ensures Answered(e.state, e.sent, k, base) {
      ConnectedBefore(b, Execute(b), k);
      ExecuteAnswers(b, base, k);
      AnswersPassed(b, Execute(b), e.sent, k, base);
    }
  }

  lemma {:induction false} ConnectedBefore(b: State, e: Effect, k: nat)
    requires ExecutesTo(b, e)
    ensures Connected(e.state, k) <==> Connected(b, k)
  {
  }

  lemma {:induction false} AnswersPassed(b: State, e: Effect, sent: seq<Output>, k: nat, base: KvMap)
    requires ExecutesTo(b, e) && Answered(b, e.sent, k, base) && forall o :: o in e.sent ==> o in sent
    ensures Answered(e.state, sent, k, base)
  {
    var o :| o in e.sent && ReplyOver(b, o, k, base) && Connected(b, k) && o.to == b.connections[b.log[k].client];
    assert o in sent && ReplyOver(e.state, o, k, base);
  }

  /** A replica that has executed from a base state which kept its executed prefix. */
  lemma {:induction false} RanFaithfully(s: State, b: State, e: Effect, base: KvMap)
    requires FaithfulOver(s, base) && Based(s, b) && RunsFrom(b, e) && e.state.log == b.log && Distinct(b.log)
    requires forall k :: 1 <= k <= s.lastExecuted ==> k in b.log && b.log[k].Bare() == s.log[k].Bare()
    ensures FaithfulOver(e.state, base)
    ensures AnswersExactly(s, e, base)
  {
    BasedFaithful(s, b, base);
    ExecuteFaithful(b, base);
    RanAnswers(b, e, base);
    forall o | o in e.sent && o.msg.command == Reply ensures NewResult(s, e.state, o, base) {
      ExecuteReplies(b, base, o);
      var k :| b.lastExecuted < k <= Execute(b).state.lastExecuted && ReplyOver(b, o, k, base);
      assert ReplyOver(e.state, o, k, base);
    }
  }

  /** The step brings a recovering replica the response it was waiting for. */
  predicate CompletesIn(c: Cluster, step: Step) {
    step.Deliver? && ValidId(c, step.p.dst) && step.p.msg.command == RecoveryResponse
    && CompletesRecovery(c.replicas[step.p.dst], step.p.msg)
  }

  /** What a step does on executing: the replies to a client's request come from the table. */
  function Replied(step: Step, e: Effect): Effect {
    if step.ClientRequest? then Effect(e.state, []) else e
  }

  /** What a replica does in a step that completes no recovery starts from a base that
      has executed what it had. */
  lemma {:induction false} ActorBase(c: Cluster, step: Step) returns (b: State)
    requires Enabled(c, step) && !step.Lose? && !CompletesIn(c, step)
    requires forall p :: p in c.net ==> p.msg.command != Request
    ensures var (i, e, _) := Acting(c, step);
      && i < |c.replicas| && Based(c.replicas[i], b) && e.state.log == b.log
      && RunsFrom(b, Replied(step, e))
  {
    var (i, e, net) := Acting(c, step);
    match step
    case Deliver(p) => b := HandlerBase(c.replicas[i], Inbound(PeerEnd(p.src), p.msg));
    case ClientRequest(_, socket, m) =>
      b := e.state;
      RequestBase(c.replicas[i], Inbound(ClientEnd(socket), m));
    case _ => b := e.state;
  }

  lemma {:induction false} MovedFaithfully(c: Cluster, c': Cluster, g: History, h: History, i: nat, b: State, e: Effect, base: KvMap)
    requires Inv(c, g) && Inv(c', h) && Extends(g, h) && i < c.n && c'.replicas[i] == e.state
    requires FaithfulOver(c.replicas[i], base) && Based(c.replicas[i], b) && RunsFrom(b, e) && e.state.log == b.log
    requires forall v :: 0 <= v < |h.views| ==> LogDiffers(h.views[v].log)
    ensures FaithfulOver(e.state, base)
    ensures AnswersExactly(c.replicas[i], e, base)
  {
    var s := c.replicas[i];
    assert ReplicaOk(h, e.state, i);
    HeldLogDiffers(e.state, h.views[LogView(e.state)].log);
    forall k | 1 <= k <= s.lastExecuted ensures k in b.log && b.log[k].Bare() == s.log[k].Bare() {
      ExecutedKept(c, c', g, h, i, k);
    }
    RanFaithfully(s, b, e, base);
  }

  /** A reply that a step sends on executing carries the sequential result, and everything
      a connected primary executes is answered. */
  ghost predicate RepliesOk(c: Cluster, step: Step)
    requires Enabled(c, step)
  {
    !step.Lose? && !step.ClientRequest? ==>
      var (i, e, _) := Acting(c, step);
      i < |c.replicas| && AnswersExactly(c.replicas[i], e, map[])
  }

  lemma {:induction false} NoRequestInFlight(c: Cluster, g: History)
    requires Inv(c, g)
    ensures forall p :: p in c.net ==> p.msg.command != Request
  {
    forall p | p in c.net ensures p.msg.command != Request {
      assert PacketOk(g, p);
    }
  }

  lemma {:induction false} ActorFaithful(c: Cluster, step: Step, c': Cluster, g: History, h: History)
    requires Inv(c, g) && Enabled(c, step) && NobodyRecovers(c)
    requires !step.Lose? && Inv(c', h) && Extends(g, h) && Acting(c, step).0 < |c'.replicas|
    requires !step.Recover? && forall v :: 0 <= v < |h.views| ==> LogDiffers(h.views[v].log)
    requires Faithful(c.replicas[Acting(c, step).0]) && c'.replicas[Acting(c, step).0] == Acting(c, step).1.state
    ensures Faithful(Acting(c, step).1.state) && RepliesOk(c, step)
  {
    var (i, e, net) := Acting(c, step);
    NoRequestInFlight(c, g);
    var b := ActorBase(c, step);
    MovedFaithfully(c, c', g, h, i, b, Replied(step, e), map[]);
  }

  ghost predicate AllFaithful(c: Cluster) {
    forall i :: 0 <= i < |c.replicas| ==> Faithful(c.replicas[i])
  }

  /** Who moves in a step, and where to. */
  lemma {:induction false} WhoMoves(c: Cluster, step: Step, i: nat)
    requires Enabled(c, step) && ValidId(c, i)
    ensures |Next(c, step).replicas| == |c.replicas|
    ensures step.Lose? || Acting(c, step).0 != i ==> Next(c, step).replicas[i] == c.replicas[i]
    ensures !step.Lose? && Acting(c, step).0 == i ==> Next(c, step).replicas[i] == Acting(c, step).1.state
  {
  }

  lemma {:induction false} OneFaithfulStep(c: Cluster, step: Step, c': Cluster, g: History, h: History, i: nat)
    requires Inv(c, g) && Enabled(c, step) && NobodyRecovers(c) && Inv(c', h) && Extends(g, h) && ValidId(c, i) && i < |c'.replicas|
    requires !step.Recover? && forall v :: 0 <= v < |h.views| ==> LogDiffers(h.views[v].log)
    requires Faithful(c.replicas[i])
    requires step.Lose? || Acting(c, step).0 != i ==> c'.replicas[i] == c.replicas[i]
    requires !step.Lose? && Acting(c, step).0 == i ==> c'.replicas[i] == Acting(c, step).1.state
    ensures Faithful(c'.replicas[i]) && (!step.Lose? && Acting(c, step).0 == i ==> RepliesOk(c, step))
  {
    if !step.Lose? && Acting(c, step).0 == i {
      ActorFaithful(c, step, c', g, h);
    }
  }

  lemma {:induction false} FaithfulStep(c: Cluster, step: Step, c': Cluster, g: History, h: History)
    requires Inv(c, g) && Enabled(c, step) && c' == Next(c, step) && StepOk(c, step, c', g, h) && NobodyRecovers(c)
    requires !step.Recover? && forall v :: 0 <= v < |h.views| ==> LogDiffers(h.views[v].log)
    requires AllFaithful(c)
    ensures AllFaithful(c') && RepliesOk(c, step)
  {
    if !step.Lose? {
      WhoMoves(c, step, Acting(c, step).0);
      OneFaithfulStep(c, step, c', g, h, Acting(c, step).0);
    }
    forall i | 0 <= i < |c'.replicas| ensures Faithful(c'.replicas[i]) {
      WhoMoves(c, step, i);
      OneFaithfulStep(c, step, c', g, h, i);
    }
  }

  /** Where a plain run stands at moment t. */
  ghost predicate Standing(run: seq<Cluster>, steps: seq<Step>, gs: seq<History>, t: nat)
    requires t < |run| && t < |gs|
  {
    AllFaithful(run[t]) && LogsDiffer(steps, t, gs[t])
  }

  lemma {:induction false} StandingFirst(n: ClusterSize, run: seq<Cluster>, steps: seq<Step>, gs: seq<History>)
    requires PlainRun(n, run, steps) && |gs| > 0 && gs[0] == InitialHistory(n)
    ensures Standing(run, steps, gs, 0)
  {
    assert forall i :: 0 <= i < n ==> run[0].replicas[i] == InitialState(i, n);
  }

  lemma {:induction false} StandingStep(n: ClusterSize, run: seq<Cluster>, steps: seq<Step>, gs: seq<History>, t: nat)
    requires PlainRun(n, run, steps) && Histories(run, steps, gs) && t < |steps| && |gs| == |run|
    requires Standing(run, steps, gs, t)
    ensures Standing(run, steps, gs, t + 1) && Enabled(run[t], steps[t]) && RepliesOk(run[t], steps[t])
  {
    NobodyRecoversInRun(n, run, steps, t);
    assert MomentOk(run, t, gs[t]) && StepOk(run[t], steps[t], run[t + 1], gs[t], gs[t + 1]);
    LogsDifferStep(steps, t, gs[t], gs[t + 1]);
    FaithfulStep(run[t], steps[t], run[t + 1], gs[t], gs[t + 1]);
  }

  lemma {:induction false} FaithfulInRun(n: ClusterSize, run: seq<Cluster>, steps: seq<Step>, gs: seq<History>, t: nat)
    requires PlainRun(n, run, steps) && Histories(run, steps, gs) && t < |gs| == |run| && gs[0] == InitialHistory(n)
    ensures Standing(run, steps, gs, t)
  {
    StandingFirst(n, run, steps, gs);
    var k: nat := 0;
    while k < t
      invariant k <= t && Standing(run, steps, gs, k)
    {
      StandingStep(n, run, steps, gs, k);
      k := k + 1;
    }
  }

  lemma {:induction false} PlainFaithful(n: ClusterSize, run: seq<Cluster>, steps: seq<Step>, t: nat, i: nat)
    requires PlainRun(n, run, steps) && InRun(run, t, i)
    ensures Faithful(run[t].replicas[i]) && Distinct(run[t].replicas[i].log)
  {
    WithoutRecoveryIsSafe(n, run, steps);
    var gs := RunHistories(n, run, steps);
    FaithfulInRun(n, run, steps, gs, t);
    var s := run[t].replicas[i];
    assert MomentOk(run, t, gs[t]) && ReplicaOk(gs[t], s, i);
    HeldLogDiffers(s, gs[t].views[LogView(s)].log);
  }

  /** Replicated state equals sequential replay: at every moment, every replica's map is
      the replay, from the empty map, of the operations it has executed, in order; and
      the operation it executes next will not be skipped. */
  lemma {:induction false} ReplicatedStateIsReplay(n: ClusterSize, run: seq<Cluster>, steps: seq<Step>, t: nat, i: nat)
    requires PlainRun(n, run, steps) && InRun(run, t, i)
    ensures var s := run[t].replicas[i];
      && (forall j :: 1 <= j <= s.lastExecuted ==> j in s.log)
      && s.kv == Replay(Prefix(s.log, s.lastExecuted), map[])
      && (CanExecute(s) ==> !AlreadyExecuted(s, s.log[s.lastExecuted + 1]))
  {
    PlainFaithful(n, run, steps, t, i);
    if CanExecute(run[t].replicas[i]) {
      NeverSkipped(run[t].replicas[i], map[]);
    }
  }

  /** Every reply sent on execution carries the result that its operation has when the
      replica's log is replayed sequentially, and no operation that a primary connected to
      its client executes is left without one. */
  lemma {:induction false} RepliesAreSequential(n: ClusterSize, run: seq<Cluster>, steps: seq<Step>, t: nat)
    requires PlainRun(n, run, steps) && t < |steps|
    ensures RepliesOk(run[t], steps[t])
  {
    WithoutRecoveryIsSafe(n, run, steps);
    var gs := RunHistories(n, run, steps);
    FaithfulInRun(n, run, steps, gs, t);
    StandingStep(n, run, steps, gs, t);
  }
}
