/** A cluster of replicas over a network that may lose and reorder messages but
    delivers each at most once. */
module Cluster {
  import opened Types
  import opened Handlers

  datatype Packet = Packet(src: nat, dst: nat, msg: Message)

  /** `nonces` are the recovery nonces handed out so far. */
  datatype Cluster = Cluster(n: ClusterSize, replicas: seq<State>, net: multiset<Packet>, nonces: set<U128>)

  datatype Step =
    | Deliver(p: Packet)
    | Lose(p: Packet)
    | ClientRequest(i: nat, socket: nat, m: Message)
    | Heartbeat(i: nat)
    | LeaveView(i: nat)
    | Recover(i: nat, stuck: Inbound, nonce: U128)

  /** The packets that one output puts on the network. */
  function PacketsOf(src: nat, n: ClusterSize, o: Output): multiset<Packet> {
    match o
    case Send(PeerEnd(d), m) =>
      if d < n && d != src then multiset{Packet(src, d, m)} else multiset{}
    case Send(_, _) => multiset{}
    case Broadcast(m) => multiset(set d: nat | d < n && d != src :: Packet(src, d, m))
  }

  function Packets(src: nat, n: ClusterSize, outs: seq<Output>): multiset<Packet> {
    if outs == [] then multiset{}
    else Packets(src, n, outs[..|outs| - 1]) + PacketsOf(src, n, outs[|outs| - 1])
  }

  lemma {:induction false} OneOutput(src: nat, n: ClusterSize, o: Output)
    ensures Packets(src, n, [o]) == PacketsOf(src, n, o)
  {
    assert [o][..0] == [];
    assert Packets(src, n, []) == multiset{};
    assert multiset{} + PacketsOf(src, n, o) == PacketsOf(src, n, o);
  }

  lemma {:induction false} PacketOrigin(src: nat, n: ClusterSize, outs: seq<Output>, p: Packet)
    requires p in Packets(src, n, outs)
    ensures exists o :: o in outs && o.msg == p.msg && p in PacketsOf(src, n, o)
    ensures p.src == src && p.dst < n && p.dst != src
  {
    var last := outs[|outs| - 1];
    if p in PacketsOf(src, n, last) {
      assert last in outs;
    } else {
      PacketOrigin(src, n, outs[..|outs| - 1], p);
    }
  }

  lemma {:induction false} OutputsArrive(src: nat, n: ClusterSize, outs: seq<Output>, o: Output, p: Packet)
    requires o in outs && p in PacketsOf(src, n, o)
    ensures p in Packets(src, n, outs)
  {
    var k := |outs| - 1;
    if o != outs[k] {
      OutputsArrive(src, n, outs[..k], o, p);
    }
  }

  predicate ValidId(c: Cluster, i: nat) {
    i < c.n && c.n == |c.replicas|
  }

  /** `inb` can be waiting at replica i: it is on the network, or a client's request. */
  predicate Waiting(c: Cluster, i: nat, inb: Inbound) {
    match inb.connection
    case PeerEnd(src) => Packet(src, i, inb.message) in c.net
    case ClientEnd(_) => inb.message.command == Request
    case NoConnection => false
  }

  predicate Enabled(c: Cluster, step: Step) {
    match step
    case Deliver(p) =>
      p in c.net && ValidId(c, p.dst) && !Stale(c.replicas[p.dst], p.msg) && CanProcess(c.replicas[p.dst], p.msg)
    case Lose(p) => p in c.net
    case ClientRequest(i, _, m) => ValidId(c, i) && m.command == Request && CanProcess(c.replicas[i], m)
    case Heartbeat(i) => ValidId(c, i)
    case LeaveView(i) => ValidId(c, i) && c.replicas[i].status == Normal
    case Recover(i, inb, nonce) =>
      Waiting(c, i, inb) && ValidId(c, i) && nonce !in c.nonces &&
      var s, m := c.replicas[i], inb.message;
      s.status == Normal && !Stale(s, m) && !CanProcess(s, m) && StuckAction(s, m) == StartRecovery
  }

  /** The replica that takes the step, what it does, and what is left on the network. */
  function Acting(c: Cluster, step: Step): (nat, Effect, multiset<Packet>)
    requires Enabled(c, step) && !step.Lose?
  {
    match step
    case Deliver(p) =>
      (p.dst, Dispatch(c.replicas[p.dst], Inbound(PeerEnd(p.src), p.msg)), c.net - multiset{p})
    case ClientRequest(i, socket, m) => (i, Dispatch(c.replicas[i], Inbound(ClientEnd(socket), m)), c.net)
    case Heartbeat(i) => (i, SendCommit(c.replicas[i]), c.net)
    case LeaveView(i) => (i, InitiateViewChange(c.replicas[i]), c.net)
    case Recover(i, _, nonce) => (i, InitiateRecovery(c.replicas[i], nonce), c.net)
  }

  function Next(c: Cluster, step: Step): Cluster
    requires Enabled(c, step)
  {
    if step.Lose? then c.(net := c.net - multiset{step.p}) else
    var (i, e, net) := Acting(c, step);
    assert i < |c.replicas|;
    c.(replicas := c.replicas[i := e.state],
       net := net + Packets(i, c.n, e.sent),
       nonces := if step.Recover? then c.nonces + {step.nonce} else c.nonces)
  }

  function InitialCluster(n: ClusterSize): Cluster {
    Cluster(n, seq(n, i requires 0 <= i => InitialState(i, n)), multiset{}, {})
  }

  /** `run` is a behaviour of a cluster of `n` replicas taking `steps`. */
  ghost predicate IsRun(n: ClusterSize, run: seq<Cluster>, steps: seq<Step>) {
    && |run| == |steps| + 1
    && run[0] == InitialCluster(n)
    && forall k :: 0 <= k < |steps| ==> Enabled(run[k], steps[k]) && run[k + 1] == Next(run[k], steps[k])
  }

  /** The step brings a replica to a StartViewChange quorum, on which it issues its DoViewChange. */
  predicate IssuesDoViewChange(c: Cluster, step: Step) {
    step.Deliver? && ValidId(c, step.p.dst) && step.p.msg.command == StartViewChange &&
    var s := c.replicas[step.p.dst];
    |s.startViewChanges + {step.p.msg.replica}| >= s.F() + 1
  }

  /** The recovery, if any, that `step` completes does not fall back within the
      replica's own view: it moves to a later view or to a log at least as long. */
  predicate RecoversForward(c: Cluster, step: Step) {
    step.Deliver? && ValidId(c, step.p.dst) && step.p.msg.command == RecoveryResponse ==>
      var s := c.replicas[step.p.dst];
      CompletesRecovery(s, step.p.msg) ==>
        var best := MostRecent(s.responses + [step.p.msg]);
        best.view > s.view || best.op >= s.op
  }
}
