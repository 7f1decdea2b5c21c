/** With five replicas or more, recovery can fall back and break agreement: a recovering
    replica that has acknowledged an operation may hear only from replicas that never saw
    it, forget it, and then help elect a primary without it. With one or three it cannot,
    so agreement holds of every run of an odd cluster exactly when it has at most three. */
module Fallback {
  import opened Types
  import opened Execution
  import opened Handlers
  import opened Cluster
  import opened History
  import opened Invariant
  import Safety
  import ThreeReplicas

  /** An odd number of replicas, of which more than one may fail. */
  type Wide = n: int | n >= 5 && n % 2 == 1 witness 5

  // Reaching clusters, one step at a time

  /** A property of clusters that steps keep, such as being reached by some run. */
  type Reach = Cluster -> bool

  ghost predicate Closed(R: Reach) {
    forall c, step :: R(c) && Enabled(c, step) ==> R(Next(c, step))
  }

  /** The replicas of a cluster of n, and that is all of them. */
  ghost predicate Sized(n: Wide, c: Cluster) {
    c.n == n && |c.replicas| == n && forall i :: 0 <= i < n ==> c.replicas[i].id == i && c.replicas[i].n == n
  }

  ghost predicate On(R: Reach, n: Wide, c: Cluster) {
    Closed(R) && R(c) && Sized(n, c)
  }

  predicate OnWire(c: Cluster, src: nat, dst: nat, m: Message) {
    Packet(src, dst, m) in c.net
  }

  /** Whatever is on the network stays there. */
  ghost predicate Kept(c: Cluster, c': Cluster) {
    forall src: nat, dst: nat, m :: OnWire(c, src, dst, m) ==> OnWire(c', src, dst, m)
  }

  /** Whatever is on the network stays there, but for p. */
  ghost predicate KeptBut(c: Cluster, c': Cluster, p: Packet) {
    forall src: nat, dst: nat, m :: OnWire(c, src, dst, m) && p != Packet(src, dst, m) ==> OnWire(c', src, dst, m)
  }

  /** All that was sent to a peer is on the network. */
  ghost predicate Arrives(n: Wide, c': Cluster, i: nat, sent: seq<Output>) {
    && (forall d: nat, m :: Send(PeerEnd(d), m) in sent && d < n && d != i ==> OnWire(c', i, d, m))
    && (forall m :: Broadcast(m) in sent ==> SentToAll(n, c', i, m))
  }

  lemma {:induction false} AllArrives(n: Wide, c': Cluster, i: nat, sent: seq<Output>)
    requires Packets(i, n, sent) <= c'.net
    ensures Arrives(n, c', i, sent)
  {
    forall d: nat, m | Send(PeerEnd(d), m) in sent && d < n && d != i ensures OnWire(c', i, d, m) {
      OutputsArrive(i, n, sent, Send(PeerEnd(d), m), Packet(i, d, m));
    }
    forall m | Broadcast(m) in sent ensures SentToAll(n, c', i, m) {
      forall d: nat | d < n && d != i ensures OnWire(c', i, d, m) {
        assert Packet(i, d, m) in PacketsOf(i, n, Broadcast(m));
        OutputsArrive(i, n, sent, Broadcast(m), Packet(i, d, m));
      }
    }
  }

  /** What replica i's step e does to the rest of the cluster. */
  ghost predicate Moves(n: Wide, c: Cluster, c': Cluster, i: nat, e: Effect) {
    i < |c.replicas| && c'.replicas == c.replicas[i := e.state] && c'.n == c.n && Arrives(n, c', i, e.sent)
  }

  lemma {:induction false} Taken(n: Wide, c: Cluster, step: Step, i: nat, e: Effect)
    requires c.n == n && Enabled(c, step) && !step.Lose? && Acting(c, step).0 == i && Acting(c, step).1 == e
    ensures Moves(n, c, Next(c, step), i, e)
    ensures step.Deliver? ==> KeptBut(c, Next(c, step), step.p)
    ensures !step.Deliver? ==> Kept(c, Next(c, step))
    ensures !step.Recover? ==> Next(c, step).nonces == c.nonces
  {
    AllArrives(n, Next(c, step), i, e.sent);
  }

  lemma {:induction false} Take(R: Reach, n: Wide, c: Cluster, step: Step, i: nat, e: Effect) returns (c': Cluster)
    requires On(R, n, c) && Enabled(c, step) && !step.Lose?
    requires Acting(c, step).0 == i && Acting(c, step).1 == e && e.state.id == i && e.state.n == n
    ensures On(R, n, c') && Moves(n, c, c', i, e)
    ensures if step.Deliver? then KeptBut(c, c', step.p) else Kept(c, c')
    ensures !step.Recover? ==> c'.nonces == c.nonces
  {
    c' := Next(c, step);
    Taken(n, c, step, i, e);
  }

  ghost predicate SentToAll(n: Wide, c: Cluster, src: nat, m: Message) {
    forall d: nat :: d < n && d != src ==> OnWire(c, src, d, m)
  }

  lemma {:induction false} Primaries(n: Wide, s: State)
    requires s.n == n
    ensures s.F() == F(n) && 2 * F(n) + 1 == n && Remainder(0, n) == 0 && Remainder(1, n) == 1
    ensures s.view <= 1 ==> s.PrimaryId() == s.view && s.PrimaryIdForView(s.view) == s.view
  {
  }

  // The requests and their log entries

  function Ask(client: nat): Message {
    BLANK.(command := Request, client := U128(client, 0), request := 1)
  }

  function Entry(view: nat, client: nat, acks: set<nat>): LogEntry {
    EntryFor(view, Ask(client), acks)
  }

  function PrepareOf(view: nat, op: nat, client: nat): Message {
    BLANK.(command := Prepare, replica := view, client := U128(client, 0), request := 1, view := view, op := op)
  }

  function Ok(view: nat, i: nat): Message {
    BLANK.(command := PrepareOk, view := view, op := 1, replica := i)
  }

  // Kinds of steps in normal operation

  /** One request at the primary of its view. */
  lemma {:induction false} AskStep(R: Reach, n: Wide, c: Cluster, i: nat, client: nat) returns (c': Cluster)
    requires On(R, n, c) && i <= 1
    requires var s := c.replicas[i]; s.status == Normal && s.view == i && s.commit == 0 && U128(client, 0) !in s.clients
    ensures On(R, n, c') && Kept(c, c') && c'.nonces == c.nonces
    ensures var s := c.replicas[i];
      c'.replicas == c.replicas[i := AppendRequest(s, Inbound(ClientEnd(0), Ask(client)))]
    ensures SentToAll(n, c', i, PrepareOf(i, c.replicas[i].op + 1, client))
  {
    var s, step := c.replicas[i], ClientRequest(i, 0, Ask(client));
    Primaries(n, s);
    var e := HandleRequest(s, Inbound(ClientEnd(0), Ask(client)));
    c' := Take(R, n, c, step, i, e);
  }

  lemma {:induction false} Begin(R: Reach, n: Wide) returns (c: Cluster)
    requires Closed(R) && R(InitialCluster(n))
    ensures On(R, n, c) && c.nonces == {} && forall i :: 0 <= i < n ==> c.replicas[i] == InitialState(i, n)
  {
    c := InitialCluster(n);
  }

  /** A backup takes the next prepare of its view. */
  lemma {:induction false} PrepareStep(R: Reach, n: Wide, c: Cluster, i: nat, j: nat, client: nat) returns (c': Cluster)
    requires On(R, n, c) && i <= 1 && j < n && j != i
    requires var s := c.replicas[j];
      s.status == Normal && s.view == i && s.commit == 0 && s.op == 0 && OnWire(c, i, j, PrepareOf(i, 1, client))
    ensures On(R, n, c') && KeptBut(c, c', Packet(i, j, PrepareOf(i, 1, client)))
    ensures c'.replicas == c.replicas[j := AppendPrepare(c.replicas[j], PrepareOf(i, 1, client))]
    ensures OnWire(c', j, i, Ok(i, j)) && c'.nonces == c.nonces
  {
    var p := Packet(i, j, PrepareOf(i, 1, client));
    var s := c.replicas[j];
    Primaries(n, s);
    var e := HandlePrepare(s, Inbound(PeerEnd(i), p.msg));
    var o := Send(PeerEnd(i), Ok(i, j));
    assert e.sent[0] == o;
    c' := Take(R, n, c, Deliver(p), j, e);
  }

  /** A primary that waits for its first operation to be acknowledged. */
  ghost predicate Proposes(n: Wide, s: State, i: nat, client: nat, acks: set<nat>) {
    && s.status == Normal && s.view == i && s.commit == 0 && s.lastExecuted == 0
    && 1 in s.log && s.log[1] == Entry(i, client, acks)
    && (forall k :: k in s.log && k > 1 ==> |s.log[k].acks| <= F(n))
  }

  ghost predicate Executed(s: State, client: nat) {
    s.lastExecuted == 1 && 1 in s.log && s.log[1].client == U128(client, 0)
  }

  lemma {:induction false} AckEffect(n: Wide, s: State, i: nat, client: nat, acks: set<nat>, j: nat)
    requires s.n == n && s.id == i && i <= 1 && Proposes(n, s, i, client, acks)
    ensures var s' := HandlePrepareOk(s, Ok(i, j)).state;
      && s'.id == i && s'.n == n
      && (|acks + {j}| <= F(n) ==> Proposes(n, s', i, client, acks + {j}))
      && (|acks + {j}| > F(n) ==> Executed(s', client))
  {
    Primaries(n, s);
    var s' := s.(log := AddAck(s.log, 1, j));
    if |acks + {j}| > F(n) {
      assert NextIsAcknowledged(s') && AdvanceCommit(s').commit >= 1;
      assert AdvanceCommit(s').commit < 2;
      assert ExecutesTo(AdvanceCommit(s'), Execute(AdvanceCommit(s')));
    } else {
      assert AdvanceCommit(s') == s';
      assert Execute(s') == Effect(s', []);
    }
  }

  /** The primary records an acknowledgement of its first operation. */
  lemma {:induction false} AckStep(R: Reach, n: Wide, c: Cluster, i: nat, client: nat, acks: set<nat>, j: nat) returns (c': Cluster)
    requires On(R, n, c) && i <= 1 && j < n && j != i && OnWire(c, j, i, Ok(i, j))
    requires Proposes(n, c.replicas[i], i, client, acks)
    ensures On(R, n, c') && KeptBut(c, c', Packet(j, i, Ok(i, j)))
    ensures forall k :: 0 <= k < n && k != i ==> c'.replicas[k] == c.replicas[k]
    ensures |acks + {j}| <= F(n) ==> Proposes(n, c'.replicas[i], i, client, acks + {j})
    ensures |acks + {j}| > F(n) ==> Executed(c'.replicas[i], client)
  {
    var s := c.replicas[i];
    Primaries(n, s);
    AckEffect(n, s, i, client, acks, j);
    c' := Take(R, n, c, Deliver(Packet(j, i, Ok(i, j))), i, HandlePrepareOk(s, Ok(i, j)));
  }

  // Recovery

  const NONCE := U128(9, 9)

  function Lost(i: nat): Message {
    BLANK.(command := RecoveryRequest, replica := i, body := Body(true, NONCE, 0, map[]))
  }

  lemma {:induction false} RecoverStep(R: Reach, n: Wide, c: Cluster, i: nat, client: nat) returns (c': Cluster)
    requires On(R, n, c) && 0 < i < n && NONCE !in c.nonces && OnWire(c, 0, i, PrepareOf(0, 3, client))
    requires var s := c.replicas[i]; s.status == Normal && s.view == 0 && s.op == 1
    ensures On(R, n, c') && Kept(c, c')
    ensures var s := c.replicas[i];
      c'.replicas == c.replicas[i := s.(status := Recovery, nonce := NONCE, responses := [])]
    ensures SentToAll(n, c', i, Lost(i))
  {
    var s, step := c.replicas[i], Recover(i, Inbound(PeerEnd(0), PrepareOf(0, 3, client)), NONCE);
    Primaries(n, s);
    var e := InitiateRecovery(s, NONCE);
    c' := Take(R, n, c, step, i, e);
  }

  /** Answers from replicas that have seen nothing. */
  ghost predicate NothingSeen(ms: seq<Message>) {
    forall a :: 0 <= a < |ms| ==>
      ms[a].view == 0 && ms[a].op == 0 && ms[a].commit == 0 && ms[a].body == Body(true, NONCE, 0, map[])
  }

  lemma {:induction false} MostRecentOfNothing(ms: seq<Message>)
    requires ms != [] && NothingSeen(ms)
    ensures NothingSeen([MostRecent(ms)])
  {
    if |ms| > 1 {
      MostRecentOfNothing(ms[..|ms| - 1]);
    }
  }

  /** A replica with nothing in its log. */
  ghost predicate Blank(s: State) {
    s.op == 0 && s.commit == 0 && s.log == map[] && s.lastExecuted == 0 && s.lastNormalView == 0
  }

  /** A replica that has heard k answers out of f+1. */
  ghost predicate Recovering(n: Wide, s: State, k: nat) {
    if k <= F(n) then
      && s.status == Recovery && s.view == 0 && s.nonce == NONCE && s.lastNormalView == 0
      && NothingSeen(s.responses) && |s.responses| == k
    else
      s.status == Normal && s.view == 0 && Blank(s) && s.clients == map[]
  }

  lemma {:induction false} AnswerEffect(n: Wide, s: State, i: nat, k: nat, j: nat)
    requires s.n == n && s.id == i && k <= F(n) && Recovering(n, s, k)
    ensures var s' := HandleRecoveryResponse(s, RecoveryResponseMessage(InitialState(j, n), NONCE)).state;
      s'.n == n && s'.id == i && Recovering(n, s', k + 1)
  {
    Primaries(n, s);
    assert EraseAcks(map[]) == map[];
    var m := RecoveryResponseMessage(InitialState(j, n), NONCE);
    var ms := s.responses + [m];
    assert NothingSeen(ms);
    if k == F(n) {
      MostRecentOfNothing(ms);
      assert NothingSeen([MostRecent(ms)]) && [MostRecent(ms)][0] == MostRecent(ms);
      var r := AdoptResponse(s, MostRecent(ms));
      assert Execute(r) == Effect(r, []);
    }
  }

  predicate Exchanges(q: Packet, i: nat, j: nat) {
    (q.dst == j && q.msg.command == RecoveryRequest) || (q.dst == i && q.msg.command == RecoveryResponse)
  }

  /** A replica that has seen nothing answers, and the answer is stored. */
  lemma {:induction false} AnswerStep(R: Reach, n: Wide, c: Cluster, i: nat, k: nat, j: nat) returns (c': Cluster)
    requires On(R, n, c) && i < n && j < n && i != j && c.replicas[j] == InitialState(j, n)
    requires k <= F(n) && Recovering(n, c.replicas[i], k) && OnWire(c, i, j, Lost(i))
    ensures On(R, n, c') && forall a: nat, b: nat, m :: OnWire(c, a, b, m) && !Exchanges(Packet(a, b, m), i, j) ==> OnWire(c', a, b, m)
    ensures forall a :: 0 <= a < n && a != i ==> c'.replicas[a] == c.replicas[a]
    ensures Recovering(n, c'.replicas[i], k + 1)
  {
    var m := RecoveryResponseMessage(InitialState(j, n), NONCE);
    var c1 := AnswerSent(R, n, c, i, j);
    AnswerEffect(n, c.replicas[i], i, k, j);
    c' := Take(R, n, c1, Deliver(Packet(j, i, m)), i, HandleRecoveryResponse(c.replicas[i], m));
  }

  lemma {:induction false} AnswerSent(R: Reach, n: Wide, c: Cluster, i: nat, j: nat) returns (c': Cluster)
    requires On(R, n, c) && i < n && j < n && i != j && c.replicas[j] == InitialState(j, n) && OnWire(c, i, j, Lost(i))
    ensures On(R, n, c') && KeptBut(c, c', Packet(i, j, Lost(i))) && c'.replicas == c.replicas
    ensures OnWire(c', j, i, RecoveryResponseMessage(InitialState(j, n), NONCE))
  {
    var m := RecoveryResponseMessage(InitialState(j, n), NONCE);
    var e := HandleRecoveryRequest(InitialState(j, n), Lost(i));
    assert e == Effect(InitialState(j, n), [Send(PeerEnd(i), m)]);
    c' := Take(R, n, c, Deliver(Packet(i, j, Lost(i))), j, e);
  }

  // View change

  function Leaving(i: nat): Message {
    BLANK.(command := StartViewChange, view := 1, replica := i)
  }

  function EmptyHanded(i: nat): Message {
    BLANK.(command := DoViewChange, view := 1, replica := i, body := Body(true, ZERO128, 0, map[]))
  }

  /** A replica that has left view 0 with nothing and has heard of `heard`. */
  ghost predicate Changing(s: State, heard: set<nat>, collected: seq<Message>) {
    && s.status == ViewChange && s.view == 1 && Blank(s)
    && s.startViewChanges == heard && s.doViewChanges == collected
  }

  lemma {:induction false} LeaveStep(R: Reach, n: Wide, c: Cluster, i: nat) returns (c': Cluster)
    requires On(R, n, c) && i < n
    requires var s := c.replicas[i]; s.status == Normal && s.view == 0 && Blank(s)
    ensures On(R, n, c') && Kept(c, c')
    ensures forall a :: 0 <= a < n && a != i ==> c'.replicas[a] == c.replicas[a]
    ensures Changing(c'.replicas[i], {i}, []) && c'.replicas[i].clients == c.replicas[i].clients
    ensures SentToAll(n, c', i, Leaving(i))
  {
    var e := InitiateViewChange(c.replicas[i]);
    c' := Take(R, n, c, LeaveView(i), i, e);
  }

  lemma {:induction false} NothingToReport(s: State, i: nat)
    requires s.view == 1 && s.id == i && Blank(s)
    ensures DoViewChangeMessage(s.(startViewChanges := {})) == EmptyHanded(i)
  {
    assert EraseAcks(map[]) == map[];
  }

  /** Hearing of one more replica: still short of a quorum, or issuing the DoViewChange. */
  lemma {:induction false} HearEffect(n: Wide, s: State, i: nat, heard: set<nat>, a: nat)
    requires s.n == n && s.id == i && Changing(s, heard, [])
    ensures var e := HandleStartViewChange(s, Leaving(a));
      if |heard + {a}| <= F(n) then e == Effect(s.(startViewChanges := heard + {a}), [])
      else if i == 1 then e == Effect(s.(startViewChanges := {}, doViewChanges := [EmptyHanded(1)]), [])
      else e == Effect(s.(startViewChanges := {}), [Send(PeerEnd(1), EmptyHanded(i))])
  {
    Primaries(n, s);
    NothingToReport(s, i);
    assert [] + [EmptyHanded(1)] == [EmptyHanded(1)];
  }

  lemma {:induction false} HearStep(R: Reach, n: Wide, c: Cluster, i: nat, heard: set<nat>, a: nat) returns (c': Cluster)
    requires On(R, n, c) && i < n && a < n && i != a && Changing(c.replicas[i], heard, []) && OnWire(c, a, i, Leaving(a))
    ensures On(R, n, c') && KeptBut(c, c', Packet(a, i, Leaving(a)))
    ensures forall b :: 0 <= b < n && b != i ==> c'.replicas[b] == c.replicas[b]
    ensures c'.replicas[i].clients == c.replicas[i].clients
    ensures |heard + {a}| <= F(n) ==> Changing(c'.replicas[i], heard + {a}, [])
    ensures |heard + {a}| > F(n) ==>
      && Changing(c'.replicas[i], {}, if i == 1 then [EmptyHanded(1)] else [])
      && (i != 1 ==> OnWire(c', i, 1, EmptyHanded(i)))
  {
    var s := c.replicas[i];
    HearEffect(n, s, i, heard, a);
    c' := Take(R, n, c, Deliver(Packet(a, i, Leaving(a))), i, HandleStartViewChange(s, Leaving(a)));
    if |heard + {a}| > F(n) && i != 1 {
      }
  }

  /** Nothing but empty DoViewChange messages. */
  ghost predicate AllEmpty(ms: seq<Message>) {
    forall a :: 0 <= a < |ms| ==> ms[a].op == 0 && ms[a].commit == 0 && ms[a].body == Body(true, ZERO128, 0, map[])
  }

  lemma {:induction false} BestOfEmpty(ms: seq<Message>)
    requires ms != [] && AllEmpty(ms)
    ensures BestOf(ms).op == 0 && BestOf(ms).body.log == map[] && BestOf(ms).body.lastNormalView == 0
    ensures MaxCommit(0, ms) == 0
  {
    if |ms| > 1 {
      BestOfEmpty(ms[..|ms| - 1]);
    }
  }

  function Announced(): Message {
    BLANK.(command := StartView, view := 1, replica := 1, body := Body(true, ZERO128, 0, map[]))
  }

  /** Replica 1 with k DoViewChange messages collected, or primary if they are enough. */
  ghost predicate Electing(n: Wide, s: State, k: nat) {
    && s.view == 1 && Blank(s) && s.clients == map[]
    && if k <= F(n) then s.status == ViewChange && AllEmpty(s.doViewChanges) && |s.doViewChanges| == k
       else s.status == Normal
  }

  lemma {:induction false} ElectEffect(n: Wide, s: State, k: nat, j: nat)
    requires s.n == n && s.id == 1 && 1 <= k <= F(n) && Electing(n, s, k)
    ensures var e := HandleDoViewChange(s, EmptyHanded(j));
      && e.state.n == n && e.state.id == 1 && Electing(n, e.state, k + 1)
      && (k == F(n) ==> Broadcast(Announced()) in e.sent)
  {
    Primaries(n, s);
    var ms := s.doViewChanges + [EmptyHanded(j)];
    assert AllEmpty(ms);
    if k == F(n) {
      BestOfEmpty(ms);
      assert EraseAcks(map[]) == map[];
      var s' := BecomePrimary(s, ms);
      assert Execute(s') == Effect(s', []);
      assert HandleDoViewChange(s, EmptyHanded(j)).sent[0] == Broadcast(Announced());
    }
  }

  lemma {:induction false} ElectStep(R: Reach, n: Wide, c: Cluster, k: nat, j: nat) returns (c': Cluster)
    requires On(R, n, c) && 1 < j < n && 1 <= k <= F(n) && Electing(n, c.replicas[1], k) && OnWire(c, j, 1, EmptyHanded(j))
    ensures On(R, n, c') && KeptBut(c, c', Packet(j, 1, EmptyHanded(j)))
    ensures forall b :: 0 <= b < n && b != 1 ==> c'.replicas[b] == c.replicas[b]
    ensures Electing(n, c'.replicas[1], k + 1)
    ensures k == F(n) ==> SentToAll(n, c', 1, Announced())
  {
    var s, step := c.replicas[1], Deliver(Packet(j, 1, EmptyHanded(j)));
    Primaries(n, s);
    ElectEffect(n, s, k, j);
    var e := HandleDoViewChange(s, EmptyHanded(j));
    c' := Take(R, n, c, step, 1, e);
    if k == F(n) {
    }
  }

  lemma {:induction false} JoinEffect(n: Wide, s: State, i: nat)
    requires s.n == n && s.id == i && i != 1 && s.view == 1 && s.status == ViewChange && Blank(s)
    ensures var s' := HandleStartView(s, Announced()).state;
      s'.n == n && s'.id == i && s'.status == Normal && s'.view == 1 && Blank(s')
  {
    var r := AdoptStartView(s, Announced());
    assert ExecutesTo(r, Execute(r));
  }

  /** A replica joins view 1 with an empty log. */
  lemma {:induction false} JoinStep(R: Reach, n: Wide, c: Cluster, i: nat) returns (c': Cluster)
    requires On(R, n, c) && 1 < i < n && OnWire(c, 1, i, Announced())
    requires var s := c.replicas[i]; s.status == ViewChange && s.view == 1 && Blank(s)
    ensures On(R, n, c') && KeptBut(c, c', Packet(1, i, Announced()))
    ensures forall b :: 0 <= b < n && b != i ==> c'.replicas[b] == c.replicas[b]
    ensures var s' := c'.replicas[i]; s'.status == Normal && s'.view == 1 && Blank(s')
  {
    var s := c.replicas[i];
    Primaries(n, s);
    JoinEffect(n, s, i);
    c' := Take(R, n, c, Deliver(Packet(1, i, Announced())), i, HandleStartView(s, Announced()));
  }

  // The run: replica 0 leads view 0, replica 1 forgets, replicas 2..f acknowledge to 0, and
  // replicas f+1..2f elect replica 1

  /** Replica 0 has logged three operations. */
  lemma {:induction false} ThreeAsked(R: Reach, n: Wide) returns (c: Cluster)
    requires Closed(R) && R(InitialCluster(n))
    ensures On(R, n, c) && c.nonces == {} && Proposes(n, c.replicas[0], 0, 1, {0})
    ensures forall i :: 1 <= i < n ==> c.replicas[i] == InitialState(i, n)
    ensures SentToAll(n, c, 0, PrepareOf(0, 1, 1)) && SentToAll(n, c, 0, PrepareOf(0, 3, 3))
  {
    var c0 := Begin(R, n);
    var c1 := AskStep(R, n, c0, 0, 1);
    var c2 := AskStep(R, n, c1, 0, 2);
    c := AskStep(R, n, c2, 0, 3);
    assert |{0}| == 1 && F(n) >= 1;
  }

  /** What the opening leaves behind on the network, for replicas from j on. */
  ghost predicate Pending(n: Wide, c: Cluster, j: nat) {
    && OnWire(c, 1, 0, Ok(0, 1))
    && (forall d: nat :: 2 <= d < n ==> OnWire(c, 0, d, PrepareOf(0, 1, 1)))
    && (forall d: nat :: j <= d < n ==> OnWire(c, 1, d, Lost(1)))
  }

  /** Replica 1 acknowledges the first operation, then misses the second and recovers. */
  lemma {:induction false} Opening(R: Reach, n: Wide) returns (c: Cluster)
    requires Closed(R) && R(InitialCluster(n))
    ensures On(R, n, c) && Proposes(n, c.replicas[0], 0, 1, {0}) && Recovering(n, c.replicas[1], 0)
    ensures (forall i :: 2 <= i < n ==> c.replicas[i] == InitialState(i, n)) && Pending(n, c, 2)
  {
    var c0 := ThreeAsked(R, n);
    var c1 := PrepareStep(R, n, c0, 0, 1, 1);
    c := RecoverStep(R, n, c1, 1, 3);
  }

  /** Replica 1 hears from f+1 others, and forgets what it has acknowledged. */
  lemma {:induction false} Forgetting(R: Reach, n: Wide) returns (c: Cluster)
    requires Closed(R) && R(InitialCluster(n))
    ensures On(R, n, c) && Proposes(n, c.replicas[0], 0, 1, {0})
    ensures var s := c.replicas[1]; s.status == Normal && s.view == 0 && Blank(s) && s.clients == map[]
    ensures (forall i :: 2 <= i < n ==> c.replicas[i] == InitialState(i, n)) && Pending(n, c, n)
  {
    c := Opening(R, n);
    var j: nat := 2;
    while j < F(n) + 3
      invariant 2 <= j <= F(n) + 3 <= n && On(R, n, c) && Proposes(n, c.replicas[0], 0, 1, {0})
      invariant Recovering(n, c.replicas[1], j - 2) && Pending(n, c, j)
      invariant forall i :: 2 <= i < n ==> c.replicas[i] == InitialState(i, n)
    {
      c := AnswerStep(R, n, c, 1, j - 2, j);
      j := j + 1;
    }
  }

  /** The numbers below k. */
  function Upto(k: nat): (r: set<nat>)
    ensures |r| == k && forall x :: x in r ==> x < k
  {
    if k == 0 then {} else Upto(k - 1) + {k - 1}
  }

  lemma {:induction false} FirstTwo()
    ensures {0} + {1} == Upto(2)
  {
    assert Upto(1) == Upto(0) + {0};
  }

  /** Replica j appends the first operation of replica 0 and acknowledges it. */
  lemma {:induction false} Acknowledge(R: Reach, n: Wide, c: Cluster, j: nat) returns (c': Cluster)
    requires On(R, n, c) && 2 <= j <= F(n) && c.replicas[j] == InitialState(j, n)
    requires Proposes(n, c.replicas[0], 0, 1, Upto(j)) && OnWire(c, 0, j, PrepareOf(0, 1, 1))
    ensures On(R, n, c') && forall d: nat, m :: d != j && OnWire(c, 0, d, m) ==> OnWire(c', 0, d, m)
    ensures forall b :: 0 < b < n && b != j ==> c'.replicas[b] == c.replicas[b]
    ensures j < F(n) ==> Proposes(n, c'.replicas[0], 0, 1, Upto(j + 1))
    ensures j == F(n) ==> Executed(c'.replicas[0], 1)
  {
    assert Upto(j) + {j} == Upto(j + 1);
    var c1 := PrepareStep(R, n, c, 0, j, 1);
    c' := AckStep(R, n, c1, 0, 1, Upto(j), j);
  }

  /** Replicas below j have acknowledged replica 0's operation; it is on its way to the others. */
  ghost predicate FirstUpTo(n: Wide, c: Cluster, j: nat)
    requires Sized(n, c)
  {
    && (if j <= F(n) then Proposes(n, c.replicas[0], 0, 1, Upto(j)) else Executed(c.replicas[0], 1))
    && (var s := c.replicas[1]; s.status == Normal && s.view == 0 && Blank(s) && s.clients == map[])
    && (forall i :: j <= i < n ==> c.replicas[i] == InitialState(i, n))
    && (forall d: nat :: j <= d < n ==> OnWire(c, 0, d, PrepareOf(0, 1, 1)))
  }

  /** The acknowledgement that was forgotten arrives. */
  lemma {:induction false} FirstAck(R: Reach, n: Wide) returns (c: Cluster)
    requires Closed(R) && R(InitialCluster(n))
    ensures On(R, n, c) && FirstUpTo(n, c, 2)
  {
    var c0 := Forgetting(R, n);
    FirstTwo();
    c := AckStep(R, n, c0, 0, 1, {0}, 1);
  }

  /** The first operation is committed. */
  lemma {:induction false} Committing(R: Reach, n: Wide) returns (c: Cluster)
    requires Closed(R) && R(InitialCluster(n))
    ensures On(R, n, c) && FirstUpTo(n, c, F(n) + 1)
  {
    c := FirstAck(R, n);
    var j: nat := 2;
    while j <= F(n)
      invariant 2 <= j <= F(n) + 1 <= n && On(R, n, c) && FirstUpTo(n, c, j)
    {
      c := Acknowledge(R, n, c, j);
      j := j + 1;
    }
  }

  /** The replicas that change to view 1, none of which holds the committed operation. */
  function Voter(n: Wide, x: nat): (i: nat)
    ensures x <= F(n) ==> i < n
  {
    if x == 0 then 1 else F(n) + x
  }

  /** Voters from x on still wait in view 0; those before have left it and said so. */
  ghost predicate LeftUpTo(n: Wide, c: Cluster, x: nat)
    requires Sized(n, c)
  {
    && (forall y: nat :: y < x && y <= F(n) ==>
          Changing(c.replicas[Voter(n, y)], {Voter(n, y)}, []) && SentToAll(n, c, Voter(n, y), Leaving(Voter(n, y))))
    && (forall y: nat :: x <= y <= F(n) ==>
          var s := c.replicas[Voter(n, y)]; s.status == Normal && s.view == 0 && Blank(s))
    && c.replicas[1].clients == map[]
  }

  lemma {:induction false} Leaves(R: Reach, n: Wide) returns (c: Cluster)
    requires Closed(R) && R(InitialCluster(n))
    ensures On(R, n, c) && Executed(c.replicas[0], 1) && LeftUpTo(n, c, F(n) + 1)
  {
    c := Committing(R, n);
    var x: nat := 0;
    while x <= F(n)
      invariant x <= F(n) + 1 && On(R, n, c) && Executed(c.replicas[0], 1) && LeftUpTo(n, c, x)
    {
      c := LeaveStep(R, n, c, Voter(n, x));
      x := x + 1;
    }
  }

  /** Voter x and the voters below y. */
  function Heard(n: Wide, x: nat, y: nat): set<nat> {
    if y == 0 then {Voter(n, x)} else Heard(n, x, y - 1) + {Voter(n, y - 1)}
  }

  lemma {:induction false} NotHeard(n: Wide, x: nat, y: nat, z: nat)
    requires y <= z && z != x
    ensures Voter(n, z) !in Heard(n, x, y)
  {
    if y > 0 {
      NotHeard(n, x, y - 1, z);
    }
  }

  lemma {:induction false} SelfHeard(n: Wide, x: nat, y: nat)
    ensures Voter(n, x) in Heard(n, x, y)
  {
    if y > 0 {
      SelfHeard(n, x, y - 1);
    }
  }

  lemma {:induction false} HeardSize(n: Wide, x: nat, y: nat)
    ensures |Heard(n, x, y)| == if x >= y then y + 1 else y
  {
    if y > 0 {
      HeardSize(n, x, y - 1);
      if x == y - 1 {
        SelfHeard(n, x, y - 1);
        assert Heard(n, x, y) == Heard(n, x, y - 1);
      } else {
        NotHeard(n, x, y - 1, y - 1);
      }
    }
  }

  /** A voter has issued its DoViewChange. */
  ghost predicate Issued(n: Wide, c: Cluster, x: nat)
    requires Sized(n, c) && x <= F(n)
  {
    && Changing(c.replicas[Voter(n, x)], {}, if x == 0 then [EmptyHanded(1)] else [])
    && (x != 0 ==> OnWire(c, Voter(n, x), 1, EmptyHanded(Voter(n, x))))
  }

  /** Nothing is gone but messages to i about leaving. */
  ghost predicate KeptButLeaving(c: Cluster, c': Cluster, i: nat) {
    forall a: nat, b: nat, m :: OnWire(c, a, b, m) && !(b == i && m.command == StartViewChange) ==> OnWire(c', a, b, m)
  }

  /** The announcements of the voters from y on are on their way to voter x. */
  ghost predicate AwaitsFrom(n: Wide, c: Cluster, x: nat, y: nat) {
    forall z: nat :: y <= z <= F(n) && z != x ==> OnWire(c, Voter(n, z), Voter(n, x), Leaving(Voter(n, z)))
  }

  /** How far voter x has come when it has heard of the voters below y. */
  ghost predicate Gathering(n: Wide, c: Cluster, x: nat, y: nat)
    requires Sized(n, c) && x <= F(n)
  {
    if |Heard(n, x, y)| <= F(n) then Changing(c.replicas[Voter(n, x)], Heard(n, x, y), []) else Issued(n, c, x)
  }

  lemma {:induction false} GatherStep(R: Reach, n: Wide, c: Cluster, x: nat, y: nat) returns (c': Cluster)
    requires On(R, n, c) && x <= F(n) && y <= F(n) && Gathering(n, c, x, y) && AwaitsFrom(n, c, x, y)
    ensures On(R, n, c') && Gathering(n, c', x, y + 1) && KeptButLeaving(c, c', Voter(n, x)) && AwaitsFrom(n, c', x, y + 1)
    ensures forall b :: 0 <= b < n && b != Voter(n, x) ==> c'.replicas[b] == c.replicas[b]
    ensures c'.replicas[Voter(n, x)].clients == c.replicas[Voter(n, x)].clients
  {
    HeardSize(n, x, y);
    HeardSize(n, x, y + 1);
    if x == y {
      SelfHeard(n, x, y);
      assert Heard(n, x, y + 1) == Heard(n, x, y);
      c' := c;
    } else {
      var i, a := Voter(n, x), Voter(n, y);
      assert Heard(n, x, y) + {a} == Heard(n, x, y + 1);
      c' := HearStep(R, n, c, i, Heard(n, x, y), a);
    }
  }

  /** A voter hears of all the others and issues its DoViewChange. */
  lemma {:induction false} GatherAll(R: Reach, n: Wide, c: Cluster, x: nat) returns (c': Cluster)
    requires On(R, n, c) && x <= F(n) && Changing(c.replicas[Voter(n, x)], {Voter(n, x)}, []) && AwaitsFrom(n, c, x, 0)
    ensures On(R, n, c') && Issued(n, c', x) && KeptButLeaving(c, c', Voter(n, x))
    ensures forall b :: 0 <= b < n && b != Voter(n, x) ==> c'.replicas[b] == c.replicas[b]
    ensures c'.replicas[Voter(n, x)].clients == c.replicas[Voter(n, x)].clients
  {
    c' := c;
    var y: nat := 0;
    HeardSize(n, x, 0);
    while y <= F(n)
      invariant y <= F(n) + 1 && On(R, n, c') && Gathering(n, c', x, y) && AwaitsFrom(n, c', x, y)
      invariant KeptButLeaving(c, c', Voter(n, x))
      invariant forall b :: 0 <= b < n && b != Voter(n, x) ==> c'.replicas[b] == c.replicas[b]
      invariant c'.replicas[Voter(n, x)].clients == c.replicas[Voter(n, x)].clients
    {
      c' := GatherStep(R, n, c', x, y);
      y := y + 1;
    }
    HeardSize(n, x, F(n) + 1);
  }

  /** Voters before x have issued their DoViewChange, those from x on are still to hear. */
  ghost predicate IssuedUpTo(n: Wide, c: Cluster, x: nat)
    requires Sized(n, c)
  {
    && (forall y: nat :: y < x && y <= F(n) ==> Issued(n, c, y))
    && (forall y: nat :: x <= y <= F(n) ==> Changing(c.replicas[Voter(n, y)], {Voter(n, y)}, []) && AwaitsFrom(n, c, y, 0))
    && c.replicas[1].clients == map[]
  }

  lemma {:induction false} NextIssues(R: Reach, n: Wide, c: Cluster, x: nat) returns (c': Cluster)
    requires On(R, n, c) && x <= F(n) && IssuedUpTo(n, c, x)
    ensures On(R, n, c') && IssuedUpTo(n, c', x + 1) && c'.replicas[0] == c.replicas[0]
  {
    c' := GatherAll(R, n, c, x);
    forall y: nat | y < x + 1 && y <= F(n) ensures Issued(n, c', y) {
      assert y < x ==> Issued(n, c, y);
    }
    forall y: nat | x + 1 <= y <= F(n) ensures Changing(c'.replicas[Voter(n, y)], {Voter(n, y)}, []) && AwaitsFrom(n, c', y, 0) {
      assert Changing(c.replicas[Voter(n, y)], {Voter(n, y)}, []) && AwaitsFrom(n, c, y, 0);
    }
  }

  lemma {:induction false} Gathers(R: Reach, n: Wide) returns (c: Cluster)
    requires Closed(R) && R(InitialCluster(n))
    ensures On(R, n, c) && Executed(c.replicas[0], 1) && IssuedUpTo(n, c, F(n) + 1)
  {
    c := Leaves(R, n);
    var x: nat := 0;
    while x <= F(n)
      invariant x <= F(n) + 1 && On(R, n, c) && Executed(c.replicas[0], 1) && IssuedUpTo(n, c, x)
    {
      c := NextIssues(R, n, c, x);
      x := x + 1;
    }
  }

  /** Replica 1 has k of the DoViewChange messages, and the others are on their way. */
  ghost predicate ElectedUpTo(n: Wide, c: Cluster, k: nat)
    requires Sized(n, c)
  {
    && Electing(n, c.replicas[1], k)
    && (forall y: nat :: 1 <= y <= F(n) ==>
          var s := c.replicas[Voter(n, y)]; s.status == ViewChange && s.view == 1 && Blank(s))
    && (forall y: nat :: 1 <= y <= F(n) && k <= y ==> OnWire(c, Voter(n, y), 1, EmptyHanded(Voter(n, y))))
    && (k > F(n) ==> SentToAll(n, c, 1, Announced()))
  }

  lemma {:induction false} ElectionStarts(n: Wide, c: Cluster)
    requires Sized(n, c) && IssuedUpTo(n, c, F(n) + 1)
    ensures ElectedUpTo(n, c, 1)
  {
    assert Issued(n, c, 0);
    forall y: nat | 1 <= y <= F(n)
      ensures var s := c.replicas[Voter(n, y)]; s.status == ViewChange && s.view == 1 && Blank(s)
      ensures OnWire(c, Voter(n, y), 1, EmptyHanded(Voter(n, y)))
    {
      assert Issued(n, c, y);
    }
  }

  lemma {:induction false} Elects(R: Reach, n: Wide) returns (c: Cluster)
    requires Closed(R) && R(InitialCluster(n))
    ensures On(R, n, c) && Executed(c.replicas[0], 1) && ElectedUpTo(n, c, F(n) + 1)
  {
    c := Gathers(R, n);
    ElectionStarts(n, c);
    var k: nat := 1;
    while k <= F(n)
      invariant 1 <= k <= F(n) + 1 && On(R, n, c) && Executed(c.replicas[0], 1) && ElectedUpTo(n, c, k)
    {
      c := ElectStep(R, n, c, k, Voter(n, k));
      k := k + 1;
    }
  }

  /** Voters before x have joined view 1, and the announcement is on its way to the others. */
  ghost predicate JoinedUpTo(n: Wide, c: Cluster, x: nat)
    requires Sized(n, c)
  {
    && Electing(n, c.replicas[1], F(n) + 1)
    && (forall y: nat :: 1 <= y <= F(n) ==> var s := c.replicas[Voter(n, y)];
          s.view == 1 && Blank(s) && s.status == if y < x then Normal else ViewChange)
    && (forall y: nat :: 1 <= y <= F(n) && x <= y ==> OnWire(c, 1, Voter(n, y), Announced()))
  }

  lemma {:induction false} Joins(R: Reach, n: Wide) returns (c: Cluster)
    requires Closed(R) && R(InitialCluster(n))
    ensures On(R, n, c) && Executed(c.replicas[0], 1) && JoinedUpTo(n, c, F(n) + 1)
  {
    c := Elects(R, n);
    var x: nat := 1;
    while x <= F(n)
      invariant 1 <= x <= F(n) + 1 && On(R, n, c) && Executed(c.replicas[0], 1) && JoinedUpTo(n, c, x)
    {
      c := JoinStep(R, n, c, Voter(n, x));
      x := x + 1;
    }
  }

  /** Voters before x have acknowledged replica 1's operation; it is on its way to the others. */
  ghost predicate SecondUpTo(n: Wide, c: Cluster, x: nat)
    requires Sized(n, c)
  {
    && (if x <= F(n) then Proposes(n, c.replicas[1], 1, 4, Heard(n, 0, x)) else Executed(c.replicas[1], 4))
    && (forall y: nat :: 1 <= y <= F(n) && x <= y ==> var s := c.replicas[Voter(n, y)];
          && s.status == Normal && s.view == 1 && Blank(s) && OnWire(c, 1, Voter(n, y), PrepareOf(1, 1, 4)))
  }

  lemma {:induction false} SecondAsked(R: Reach, n: Wide) returns (c: Cluster)
    requires Closed(R) && R(InitialCluster(n))
    ensures On(R, n, c) && Executed(c.replicas[0], 1) && SecondUpTo(n, c, 1)
  {
    var c0 := Joins(R, n);
    c := AskStep(R, n, c0, 1, 4);
    assert Heard(n, 0, 1) == Heard(n, 0, 0) + {1} == {1};
  }

  lemma {:induction false} SecondStep(R: Reach, n: Wide, c: Cluster, x: nat) returns (c': Cluster)
    requires On(R, n, c) && 1 <= x <= F(n) && SecondUpTo(n, c, x)
    ensures On(R, n, c') && SecondUpTo(n, c', x + 1) && c'.replicas[0] == c.replicas[0]
  {
    var j := Voter(n, x);
    HeardSize(n, 0, x);
    HeardSize(n, 0, x + 1);
    assert Heard(n, 0, x) + {j} == Heard(n, 0, x + 1);
    var c1 := PrepareStep(R, n, c, 1, j, 4);
    c' := AckStep(R, n, c1, 1, 4, Heard(n, 0, x), j);
  }

  /** Two replicas have executed different operations under the same number. */
  ghost predicate Disagree(c: Cluster, a: nat, b: nat, k: nat) {
    && a < |c.replicas| && b < |c.replicas|
    && 1 <= k <= c.replicas[a].lastExecuted && k <= c.replicas[b].lastExecuted
    && k in c.replicas[a].log && k in c.replicas[b].log
    && c.replicas[a].log[k].Bare() != c.replicas[b].log[k].Bare()
  }

  lemma {:induction false} Breaks(R: Reach, n: Wide) returns (c: Cluster)
    requires Closed(R) && R(InitialCluster(n))
    ensures R(c) && Disagree(c, 0, 1, 1)
  {
    c := SecondAsked(R, n);
    var x: nat := 1;
    while x <= F(n)
      invariant 1 <= x <= F(n) + 1 && On(R, n, c) && Executed(c.replicas[0], 1) && SecondUpTo(n, c, x)
    {
      c := SecondStep(R, n, c, x);
      x := x + 1;
    }
    var a, b := c.replicas[0].log[1], c.replicas[1].log[1];
    assert a.Bare().client == a.client && b.Bare().client == b.client && a.client != b.client;
  }

  // Theorems

  ghost predicate EndsIn(n: ClusterSize, run: seq<Cluster>, steps: seq<Step>, c: Cluster) {
    IsRun(n, run, steps) && run[|run| - 1] == c
  }

  ghost predicate Reached(n: ClusterSize, c: Cluster) {
    exists run, steps :: EndsIn(n, run, steps, c)
  }

  lemma {:induction false} RunExtends(n: ClusterSize, run: seq<Cluster>, steps: seq<Step>, c: Cluster, step: Step)
    requires EndsIn(n, run, steps, c) && Enabled(c, step)
    ensures EndsIn(n, run + [Next(c, step)], steps + [step], Next(c, step))
  {
    var run', steps' := run + [Next(c, step)], steps + [step];
    forall k | 0 <= k < |steps'| ensures Enabled(run'[k], steps'[k]) && run'[k + 1] == Next(run'[k], steps'[k]) {
      if k < |steps| {
        assert run'[k] == run[k] && steps'[k] == steps[k] && run'[k + 1] == run[k + 1];
      }
    }
  }

  lemma {:induction false} ReachedIsClosed(n: ClusterSize)
    ensures Closed(c => Reached(n, c)) && Reached(n, InitialCluster(n))
  {
    assert EndsIn(n, [InitialCluster(n)], [], InitialCluster(n));
    forall c, step | Reached(n, c) && Enabled(c, step) ensures Reached(n, Next(c, step)) {
      var run, steps :| EndsIn(n, run, steps, c);
      RunExtends(n, run, steps, c, step);
    }
  }

  /** Recovery breaks agreement in every odd cluster of five or more: there is a run, all of
      whose steps the code takes, at whose end two replicas have executed different first
      operations. */
  lemma {:induction false} RecoveryBreaksAgreement(n: Wide) returns (run: seq<Cluster>, steps: seq<Step>)
    ensures IsRun(n, run, steps) && Disagree(run[|run| - 1], 0, 1, 1)
  {
    ReachedIsClosed(n);
    var c := Breaks(c => Reached(n, c), n);
    run, steps :| EndsIn(n, run, steps, c);
  }

  /** Disagreement always comes from a recovery that fell back. */
  lemma {:induction false} DisagreementNeedsFallback(n: ClusterSize, run: seq<Cluster>, steps: seq<Step>, a: nat, b: nat, k: nat)
    requires n % 2 == 1 && IsRun(n, run, steps) && Disagree(run[|run| - 1], a, b, k)
    ensures exists t :: 0 <= t < |steps| && !RecoversForward(run[t], steps[t])
  {
    if forall t :: 0 <= t < |steps| ==> RecoversForward(run[t], steps[t]) {
      Safety.Agreement(n, run, steps, |run| - 1, a, |run| - 1, b, k);
    }
  }

  /** No run of a cluster of n ever ends in disagreement. */
  ghost predicate AlwaysAgrees(n: ClusterSize) {
    forall c, a, b, k :: Reached(n, c) ==> !Disagree(c, a, b, k)
  }

  /** Agreement holds of every run of an odd cluster, recoveries included, exactly when it
      has at most three replicas. */
  lemma {:induction false} AgreesExactlyUpToThree(n: ClusterSize)
    requires n % 2 == 1
    ensures AlwaysAgrees(n) <==> n <= 3
  {
    if n <= 3 {
      forall c, a, b, k | Reached(n, c) ensures !Disagree(c, a, b, k) {
        var run, steps :| EndsIn(n, run, steps, c);
        ThreeReplicas.EveryRunIsSafe(n, run, steps);
        if Disagree(c, a, b, k) {
          DisagreementNeedsFallback(n, run, steps, a, b, k);
        }
      }
    } else {
      var run, steps := RecoveryBreaksAgreement(n);
      assert EndsIn(n, run, steps, run[|run| - 1]);
    }
  }
}
