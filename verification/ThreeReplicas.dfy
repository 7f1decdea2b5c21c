/** In a cluster of three, every recovery hears from both other replicas, one of which
    is at least as far as the recovering replica ever was: recovery never falls back,
    and the safety theorems hold of every run. */
module ThreeReplicas {
  import opened Types
  import opened Execution
  import opened Handlers
  import opened Cluster
  import opened History
  import opened Invariant
  import opened Preservation
  import opened Steps
  import opened Progress
  import opened Safety

  predicate IsRecoveryMessage(m: Message) {
    m.command == RecoveryRequest || m.command == RecoveryResponse
  }

  /** A packet comes from a replica that has not gone back since, and a recovery message
      says who sent it and carries a nonce that was handed out. */
  ghost predicate SentOk(c: Cluster, p: Packet) {
    && p.src < |c.replicas| && p.msg.view <= c.replicas[p.src].view
    && (IsRecoveryMessage(p.msg) ==> p.msg.replica == p.src && p.msg.body.nonce in c.nonces)
    && (p.msg.command == RecoveryRequest ==>
          p.msg == BLANK.(command := RecoveryRequest, replica := p.src, body := Body(true, p.msg.body.nonce, 0, map[])))
  }

  predicate IsRequestOf(p: Packet, i: nat, nonce: U128) {
    p.msg.command == RecoveryRequest && p.src == i && p.msg.body.nonce == nonce
  }

  predicate IsResponseTo(p: Packet, i: nat, nonce: U128) {
    p.msg.command == RecoveryResponse && p.dst == i && p.msg.body.nonce == nonce
  }

  predicate SameAnswer(p: Packet, q: Packet, i: nat, nonce: U128) {
    IsResponseTo(p, i, nonce) && IsResponseTo(q, i, nonce) && p.src == q.src
  }

  predicate HasAnswered(s: State, j: nat) {
    exists a :: 0 <= a < |s.responses| && s.responses[a].replica == j
  }

  /** Each replica answers replica i's present recovery at most once. */
  ghost predicate AnswersOnce(c: Cluster, i: nat)
    requires i < |c.replicas|
  {
    var s := c.replicas[i];
    && (forall a :: 0 <= a < |s.responses| ==> s.responses[a].replica < c.n && s.responses[a].replica != i)
    && (forall a, b :: 0 <= a < b < |s.responses| ==> s.responses[a].replica != s.responses[b].replica)
    && (forall p :: p in c.net && IsRequestOf(p, i, s.nonce) ==> c.net[p] == 1 && !HasAnswered(s, p.dst))
    && (forall p :: p in c.net && IsResponseTo(p, i, s.nonce) ==> c.net[p] == 1 && !HasAnswered(s, p.src))
    && (forall p, q :: p in c.net && q in c.net && IsRequestOf(p, i, s.nonce) && IsResponseTo(q, i, s.nonce) ==>
          q.src != p.dst)
    && (forall p, q :: p in c.net && q in c.net && SameAnswer(p, q, i, s.nonce) ==> p == q)
  }

  /** A state at (view, op) is at least as far as s. */
  predicate AtLeast(view: nat, op: nat, s: State) {
    view > s.view || (view == s.view && op >= s.op)
  }

  /** Replica j is as far as the recovering replica i, and so is all that it answers. */
  ghost predicate Ahead(c: Cluster, i: nat, j: nat)
    requires i < |c.replicas|
  {
    var s := c.replicas[i];
    && j < |c.replicas| && j != i
    && AtLeast(c.replicas[j].view, c.replicas[j].op, s)
    && (c.replicas[j].view == s.view ==> c.replicas[j].status != ViewChange)
    && (forall a :: 0 <= a < |s.responses| && s.responses[a].replica == j ==>
          AtLeast(s.responses[a].view, s.responses[a].op, s))
    && (forall p :: p in c.net && IsResponseTo(p, i, s.nonce) && p.src == j ==> AtLeast(p.msg.view, p.msg.op, s))
  }

  ghost predicate RecovererOk(c: Cluster, i: nat)
    requires i < |c.replicas|
  {
    var s := c.replicas[i];
    s.nonce in c.nonces && |s.responses| <= s.F() && AnswersOnce(c, i) && exists j :: Ahead(c, i, j)
  }

  ghost predicate RecoveryInv(c: Cluster) {
    && (forall p :: p in c.net ==> SentOk(c, p))
    && (forall i :: 0 <= i < |c.replicas| && c.replicas[i].status == Recovery ==> RecovererOk(c, i))
  }

  // The conclusion the invariant is for

  lemma {:induction false} MostRecentBeats(ms: seq<Message>, a: nat)
    requires a < |ms|
    ensures !MoreRecent(ms[a], MostRecent(ms))
  {
    var k := |ms| - 1;
    if k > 0 {
      MostRecentBeats(ms[..k], if a < k then a else 0);
    }
  }

  /** With three replicas, a completed recovery has heard from both others. */
  lemma {:induction false} HeardFromBoth(c: Cluster, i: nat, p: Packet, j: nat)
    requires i < |c.replicas| == c.n <= 3 && c.replicas[i].n == c.n && p in c.net && p.src < c.n && p.src != i
    requires IsResponseTo(p, i, c.replicas[i].nonce) && p.msg.replica == p.src && AnswersOnce(c, i)
    requires c.n % 2 == 1 && |c.replicas[i].responses| <= c.replicas[i].F()
    requires CompletesRecovery(c.replicas[i], p.msg) && j < c.n && j != i
    ensures j == p.src || (c.replicas[i].responses != [] && c.replicas[i].responses[0].replica == j)
  {
    var s := c.replicas[i];
    assert c.n == 3 && |s.responses| == 1;
    assert HasAnswered(s, s.responses[0].replica);
  }

  lemma {:induction false} AnswerFromAhead(c: Cluster, i: nat, p: Packet, j: nat)
    requires i < |c.replicas| && p in c.net && IsResponseTo(p, i, c.replicas[i].nonce) && p.msg.replica == p.src
    requires Ahead(c, i, j)
    requires j == p.src || (c.replicas[i].responses != [] && c.replicas[i].responses[0].replica == j)
    ensures var best := MostRecent(c.replicas[i].responses + [p.msg]); AtLeast(best.view, best.op, c.replicas[i])
  {
    var ms := c.replicas[i].responses + [p.msg];
    MostRecentBeats(ms, if j == p.src then |ms| - 1 else 0);
  }

  lemma {:induction false} RecoveryGoesForward(c: Cluster, g: History, step: Step)
    requires Inv(c, g) && RecoveryInv(c) && Enabled(c, step) && c.n <= 3
    ensures RecoversForward(c, step)
  {
    if step.Deliver? && step.p.msg.command == RecoveryResponse && CompletesRecovery(c.replicas[step.p.dst], step.p.msg) {
      var p := step.p;
      var i := p.dst;
      assert PacketOk(g, p) && SentOk(c, p) && ReplicaOk(g, c.replicas[i], i) && RecovererOk(c, i);
      var j :| Ahead(c, i, j);
      HeardFromBoth(c, i, p, j);
      AnswerFromAhead(c, i, p, j);
    }
  }

  // Steps of others

  /** A replica moves to a later view, or keeps at least the log it has in its view. */
  ghost predicate Forward(s: State, t: State) {
    s.view < t.view ||
    (s.view == t.view && (s.status != ViewChange ==> t.status != ViewChange && s.op <= t.op))
  }

  lemma {:induction false} StepForward(c: Cluster, step: Step, g: History, h: History, j: nat)
    requires Inv(c, g) && Enabled(c, step) && StepOk(c, step, Next(c, step), g, h) && j < c.n
    ensures Forward(c.replicas[j], Next(c, step).replicas[j])
  {
    assert ReplicaOk(g, c.replicas[j], j) && ReplicaOk(h, Next(c, step).replicas[j], j);
    StepAdvances(c, step, j);
  }

  /** Everything a recovering replica i has to do with is in c' as it was in c, or less. */
  ghost predicate Undisturbed(c: Cluster, c': Cluster, i: nat) {
    && i < |c.replicas| == |c'.replicas| && c'.n == c.n && c.nonces <= c'.nonces
    && c'.replicas[i] == c.replicas[i]
    && (forall j :: 0 <= j < |c.replicas| ==> Forward(c.replicas[j], c'.replicas[j]))
    && (forall p :: p in c'.net && (IsRequestOf(p, i, c.replicas[i].nonce) || IsResponseTo(p, i, c.replicas[i].nonce)) ==>
          p in c.net && c'.net[p] <= c.net[p])
  }

  lemma {:induction false} UndisturbedOk(c: Cluster, c': Cluster, i: nat)
    requires Undisturbed(c, c', i) && RecovererOk(c, i)
    ensures RecovererOk(c', i)
  {
    var j :| Ahead(c, i, j);
    assert Ahead(c', i, j);
  }

  // What handlers send

  /** Nothing here is a recovery message, or from a later view than v. */
  ghost predicate Plain(outs: seq<Output>, v: nat) {
    forall o :: o in outs ==> !IsRecoveryMessage(o.msg) && o.msg.view <= v
  }

  lemma {:induction false} PlainJoin(a: seq<Output>, b: seq<Output>, v: nat)
    requires Plain(a, v) && Plain(b, v)
    ensures Plain(a + b, v)
  {
    assert forall o :: o in a + b ==> o in a || o in b;
  }

  lemma {:induction false} DoViewChangePlain(s: State, m: Message)
    ensures Plain(HandleDoViewChange(s, m).sent, HandleDoViewChange(s, m).state.view)
  {
    var ms := s.doViewChanges + [m];
    if |ms| >= s.F() + 1 {
      var s' := BecomePrimary(s, ms);
      PlainJoin([Broadcast(StartViewMessage(s'))], Execute(s').sent, s.view);
    }
  }

  lemma {:induction false} StartViewChangePlain(s: State, m: Message)
    ensures Plain(HandleStartViewChange(s, m).sent, HandleStartViewChange(s, m).state.view)
  {
    var s' := s.(startViewChanges := {});
    DoViewChangePlain(s', DoViewChangeMessage(s'));
  }

  lemma {:induction false} StartViewPlain(s: State, m: Message)
    ensures Plain(HandleStartView(s, m).sent, HandleStartView(s, m).state.view)
  {
    var e := Execute(AdoptStartView(s, m));
    OksPlain(e.state, m.commit, m.op);
    PlainJoin(e.sent, RetroactiveOks(e.state, m.commit, m.op), m.view);
  }

  lemma {:induction false} OksPlain(s: State, lo: nat, hi: nat)
    ensures Plain(RetroactiveOks(s, lo, hi), s.view)
  {
  }

  lemma {:induction false} PreparePlain(s: State, inb: Inbound)
    ensures Plain(HandlePrepare(s, inb).sent, HandlePrepare(s, inb).state.view)
  {
    var s' := AppendPrepare(s, inb.message);
    PlainJoin([Send(inb.connection, PrepareOkMessage(s', s'.op))], LearnCommit(s', inb.message.commit).sent, s.view);
  }

  lemma {:induction false} HandlerPlain(s: State, inb: Inbound)
    requires inb.message.command != RecoveryRequest
    ensures Plain(Dispatch(s, inb).sent, Dispatch(s, inb).state.view)
  {
    match inb.message.command
    case Prepare => PreparePlain(s, inb);
    case StartViewChange => StartViewChangePlain(s, inb.message);
    case DoViewChange => DoViewChangePlain(s, inb.message);
    case StartView => StartViewPlain(s, inb.message);
    case _ =>
  }

  predicate AnswersRequest(step: Step) {
    step.Deliver? && step.p.msg.command == RecoveryRequest
  }

  /** Every step but an answer or the start of a recovery sends plain messages. */
  lemma {:induction false} StepPlain(c: Cluster, step: Step)
    requires Enabled(c, step) && !step.Lose? && !AnswersRequest(step) && !step.Recover?
    ensures Plain(Acting(c, step).1.sent, Acting(c, step).1.state.view)
  {
    match step
    case Deliver(p) => HandlerPlain(c.replicas[p.dst], Inbound(PeerEnd(p.src), p.msg));
    case ClientRequest(i, socket, m) => HandlerPlain(c.replicas[i], Inbound(ClientEnd(socket), m));
    case _ =>
  }

  /** What a packet p that a step from c to c' adds can be. */
  ghost predicate AddedBy(c: Cluster, step: Step, c': Cluster, p: Packet) {
    && p.src < |c'.replicas| && p.dst < c.n && p.dst != p.src
    && (p.msg.view <= c'.replicas[p.src].view)
    && (IsRecoveryMessage(p.msg) ==> AnswersRequest(step) || step.Recover?)
    && (AnswersRequest(step) ==>
          && step.p in c.net && step.p.dst < |c.replicas| && c.replicas[step.p.dst].status == Normal
          && p == Packet(step.p.dst, step.p.src, RecoveryResponseMessage(c.replicas[step.p.dst], step.p.msg.body.nonce))
          && p.msg.replica == p.src)
    && (step.Recover? ==>
          && p.src == step.i && step.nonce in c'.nonces
          && p.msg == BLANK.(command := RecoveryRequest, replica := p.src, body := Body(true, step.nonce, 0, map[])))
  }

  lemma {:induction false} AddedAnswer(c: Cluster, step: Step, p: Packet)
    requires Enabled(c, step) && AnswersRequest(step) && SentOk(c, step.p) && c.replicas[step.p.dst].id == step.p.dst
    requires p in Packets(Acting(c, step).0, c.n, Acting(c, step).1.sent)
    ensures AddedBy(c, step, Next(c, step), p)
  {
    var (i, e, net) := Acting(c, step);
    var s, m := c.replicas[i], step.p.msg;
    assert e.sent == [Send(PeerEnd(m.replica), RecoveryResponseMessage(s, m.body.nonce))];
    PacketOrigin(i, c.n, e.sent, p);
    assert p == Packet(i, m.replica, RecoveryResponseMessage(s, m.body.nonce));
  }

  lemma {:induction false} AddedRequest(c: Cluster, step: Step, p: Packet)
    requires Enabled(c, step) && step.Recover? && c.replicas[step.i].id == step.i
    requires p in Packets(Acting(c, step).0, c.n, Acting(c, step).1.sent)
    ensures AddedBy(c, step, Next(c, step), p)
  {
    var (i, e, net) := Acting(c, step);
    PacketOrigin(i, c.n, e.sent, p);
  }

  lemma {:induction false} AddedPacket(c: Cluster, step: Step, g: History, p: Packet)
    requires Inv(c, g) && Enabled(c, step) && !step.Lose?
    requires p in Packets(Acting(c, step).0, c.n, Acting(c, step).1.sent)
    requires forall q :: q in c.net ==> SentOk(c, q)
    ensures AddedBy(c, step, Next(c, step), p)
  {
    var (i, e, net) := Acting(c, step);
    assert ReplicaOk(g, c.replicas[i], i);
    if AnswersRequest(step) {
      assert SentOk(c, step.p);
      AddedAnswer(c, step, p);
    } else if step.Recover? {
      AddedRequest(c, step, p);
    } else {
      PacketOrigin(i, c.n, e.sent, p);
      StepPlain(c, step);
    }
  }

  /** c' is what one step from c leads to, as far as recovery is concerned. */
  ghost predicate Stepped(c: Cluster, step: Step, c': Cluster) {
    && |c.replicas| == |c'.replicas| == c.n == c'.n && c.nonces <= c'.nonces
    && (forall j :: 0 <= j < c.n ==> Forward(c.replicas[j], c'.replicas[j]))
    && (forall p :: p in c'.net && c'.net[p] > c.net[p] ==> AddedBy(c, step, c', p))
    && (forall p :: p in c'.net && IsRecoveryMessage(p.msg) ==> c'.net[p] <= c.net[p] + 1)
  }

  lemma {:induction false} SentKept(c: Cluster, step: Step, c': Cluster, p: Packet)
    requires (forall q :: q in c.net ==> SentOk(c, q)) && Stepped(c, step, c') && p in c'.net
    ensures SentOk(c', p)
  {
    if p in c.net {
      assert SentOk(c, p);
    } else if AnswersRequest(step) {
      assert SentOk(c, step.p);
    }
  }

  /** A replica in recovery that the step does not concern. */
  lemma {:induction false} BystanderOk(c: Cluster, step: Step, c': Cluster, i: nat)
    requires Stepped(c, step, c') && i < c.n && c'.replicas[i] == c.replicas[i] && RecovererOk(c, i)
    requires step.Recover? ==> step.i != i
    requires AnswersRequest(step) ==> !IsRequestOf(step.p, i, c.replicas[i].nonce)
    ensures RecovererOk(c', i)
  {
    assert Undisturbed(c, c', i);
    UndisturbedOk(c, c', i);
  }

  /** Only the requests of a recovery carry its new nonce. */
  lemma {:induction false} OnlyRequests(c: Cluster, step: Step, c': Cluster, p: Packet)
    requires Stepped(c, step, c') && step.Recover? && step.nonce !in c.nonces && (p in c.net ==> SentOk(c, p))
    requires p in c'.net && IsRecoveryMessage(p.msg) && p.msg.body.nonce == step.nonce
    ensures p.msg.command == RecoveryRequest && c'.net[p] == 1
  {
  }

  lemma {:induction false} NoAnswersYet(c: Cluster, i: nat, j: nat)
    requires i < |c.replicas| && c.replicas[i].responses == [] && c.replicas[i].nonce in c.nonces
    requires forall p :: p in c.net && IsRecoveryMessage(p.msg) && p.msg.body.nonce == c.replicas[i].nonce ==>
               p.msg.command == RecoveryRequest && c.net[p] == 1
    requires j < |c.replicas| && j != i && AtLeast(c.replicas[j].view, c.replicas[j].op, c.replicas[i])
    requires c.replicas[j].view == c.replicas[i].view ==> c.replicas[j].status != ViewChange
    ensures RecovererOk(c, i)
  {
    assert Ahead(c, i, j);
  }

  /** A replica that has just entered recovery. */
  lemma {:induction false} NewRecovererOk(c: Cluster, step: Step, c': Cluster, i: nat, j: nat)
    requires (forall q :: q in c.net ==> SentOk(c, q)) && Stepped(c, step, c') && step.Recover? && step.i == i < c.n
    requires step.nonce !in c.nonces && step.nonce in c'.nonces
    requires c'.replicas[i].nonce == step.nonce && c'.replicas[i].responses == []
    requires c'.replicas[i].view == c.replicas[i].view && c'.replicas[i].op == c.replicas[i].op
    requires j < c.n && j != i && AtLeast(c.replicas[j].view, c.replicas[j].op, c.replicas[i])
    requires c.replicas[j].view == c.replicas[i].view ==> c.replicas[j].status != ViewChange
    ensures RecovererOk(c', i)
  {
    forall p | p in c'.net && IsRecoveryMessage(p.msg) && p.msg.body.nonce == step.nonce
      ensures p.msg.command == RecoveryRequest && c'.net[p] == 1
    {
      OnlyRequests(c, step, c', p);
    }
    assert Forward(c.replicas[j], c'.replicas[j]);
    NoAnswersYet(c', i, j);
  }

  /** The request that has just been answered is gone, and with it all like it. */
  lemma {:induction false} OtherRequests(c: Cluster, step: Step, c': Cluster, i: nat, p: Packet)
    requires Stepped(c, step, c') && i < c.n && AnswersOnce(c, i) && AnswersRequest(step)
    requires step.p in c.net && SentOk(c, step.p) && IsRequestOf(step.p, i, c.replicas[i].nonce)
    requires c'.net[step.p] < c.net[step.p]
    requires p in c'.net && IsRequestOf(p, i, c.replicas[i].nonce) && (p in c.net ==> SentOk(c, p))
    ensures p in c.net && c'.net[p] <= c.net[p] && p.dst != step.p.dst
  {
    assert c.net[step.p] == 1;
  }

  /** The only answer that is new is the one just given. */
  lemma {:induction false} OtherResponses(c: Cluster, step: Step, c': Cluster, i: nat, p: Packet)
    requires Stepped(c, step, c') && i < c.n && AnswersRequest(step) && p in c'.net && IsResponseTo(p, i, c.replicas[i].nonce)
    ensures (p in c.net && c'.net[p] <= c.net[p]) || (p.src == step.p.dst && c'.net[p] <= c.net[p] + 1)
    ensures p.src == step.p.dst && c'.net[p] > c.net[p] ==>
              p == Packet(step.p.dst, step.p.src, RecoveryResponseMessage(c.replicas[step.p.dst], step.p.msg.body.nonce))
  {
  }

  /** One request has turned into one answer. */
  ghost predicate Exchanged(c: Cluster, c': Cluster, i: nat, answer: Packet)
    requires i < |c.replicas|
  {
    var x := c.replicas[i].nonce;
    && (forall p :: p in c'.net && IsRequestOf(p, i, x) ==>
          p in c.net && c'.net[p] <= c.net[p] && p.dst != answer.src)
    && (forall p :: p in c'.net && IsResponseTo(p, i, x) && p != answer ==> p in c.net && c'.net[p] <= c.net[p])
    && (forall p :: p in c.net && IsResponseTo(p, i, x) ==> p.src != answer.src)
    && c'.net[answer] <= 1 && answer.src < c.n && answer.src != i && !HasAnswered(c.replicas[i], answer.src)
  }

  lemma {:induction false} ExchangedOnce(c: Cluster, c': Cluster, i: nat, answer: Packet)
    requires i < |c.replicas| == |c'.replicas| && c'.n == c.n && c'.replicas[i] == c.replicas[i]
    requires AnswersOnce(c, i) && Exchanged(c, c', i, answer)
    ensures AnswersOnce(c', i)
  {
  }

  lemma {:induction false} AnsweredOnce(c: Cluster, step: Step, c': Cluster, i: nat)
    requires Stepped(c, step, c') && i < c.n && c'.replicas[i] == c.replicas[i] && AnswersOnce(c, i)
    requires AnswersRequest(step) && step.p in c.net && IsRequestOf(step.p, i, c.replicas[i].nonce)
    requires step.p.dst < c.n && step.p.dst != i
    requires (forall q :: q in c.net ==> SentOk(c, q)) && c'.net[step.p] < c.net[step.p]
    ensures AnswersOnce(c', i)
  {
    var x := c.replicas[i].nonce;
    var answer := Packet(step.p.dst, step.p.src, RecoveryResponseMessage(c.replicas[step.p.dst], step.p.msg.body.nonce));
    forall p | p in c'.net && IsRequestOf(p, i, x) ensures p in c.net && c'.net[p] <= c.net[p] && p.dst != answer.src {
      assert SentOk(c, step.p);
      OtherRequests(c, step, c', i, p);
    }
    forall p | p in c'.net && IsResponseTo(p, i, x) && p != answer ensures p in c.net && c'.net[p] <= c.net[p] {
      OtherResponses(c, step, c', i, p);
    }
    assert answer !in c.net;
    ExchangedOnce(c, c', i, answer);
  }

  /** A replica in recovery that has just been answered: the answer is on its way. */
  lemma {:induction false} AnsweredOk(c: Cluster, step: Step, c': Cluster, i: nat)
    requires Stepped(c, step, c') && i < c.n && c'.replicas[i] == c.replicas[i] && RecovererOk(c, i)
    requires AnswersRequest(step) && step.p in c.net && IsRequestOf(step.p, i, c.replicas[i].nonce)
    requires step.p.dst < c.n && step.p.dst != i
    requires (forall q :: q in c.net ==> SentOk(c, q)) && c'.net[step.p] < c.net[step.p]
    ensures RecovererOk(c', i)
  {
    AnsweredOnce(c, step, c', i);
    var j :| Ahead(c, i, j);
    forall p | p in c'.net && IsResponseTo(p, i, c.replicas[i].nonce) && p.src == j
      ensures AtLeast(p.msg.view, p.msg.op, c.replicas[i])
    {
      OtherResponses(c, step, c', i, p);
    }
    assert Ahead(c', i, j);
  }

  /** The answer p has left the network, and with it all like it. */
  ghost predicate Absorbed(c: Cluster, c': Cluster, i: nat, p: Packet)
    requires i < |c.replicas|
  {
    var x := c.replicas[i].nonce;
    && (forall q :: q in c'.net && IsRequestOf(q, i, x) ==> q in c.net && c'.net[q] <= c.net[q] && q.dst != p.src)
    && (forall q :: q in c'.net && IsResponseTo(q, i, x) ==> q in c.net && c'.net[q] <= c.net[q] && q.src != p.src)
    && p.src < c.n && p.src != i && p.msg.replica == p.src && !HasAnswered(c.replicas[i], p.src)
  }

  lemma {:induction false} AnswerAbsorbed(c: Cluster, step: Step, c': Cluster, i: nat)
    requires Stepped(c, step, c') && i < c.n && AnswersOnce(c, i) && step.Deliver? && SentOk(c, step.p)
    requires step.p in c.net && IsResponseTo(step.p, i, c.replicas[i].nonce) && step.p.src != i && step.p.src < c.n
    requires c'.net[step.p] < c.net[step.p]
    ensures Absorbed(c, c', i, step.p)
  {
    assert c.net[step.p] == 1;
    forall q | q in c'.net && IsResponseTo(q, i, c.replicas[i].nonce)
      ensures q in c.net && c'.net[q] <= c.net[q] && q.src != step.p.src
    {
      assert q != step.p && !SameAnswer(q, step.p, i, c.replicas[i].nonce);
    }
  }

  lemma {:induction false} AnsweredBy(s: State, s': State, m: Message, j: nat)
    requires s' == s.(responses := s.responses + [m]) && !HasAnswered(s, j) && j != m.replica
    ensures !HasAnswered(s', j)
  {
  }

  lemma {:induction false} AbsorbedOnce(c: Cluster, c': Cluster, i: nat, p: Packet)
    requires i < |c.replicas| == |c'.replicas| && c'.n == c.n && AnswersOnce(c, i) && Absorbed(c, c', i, p)
    requires var s := c.replicas[i]; c'.replicas[i] == s.(responses := s.responses + [p.msg])
    ensures AnswersOnce(c', i)
  {
    var s, s' := c.replicas[i], c'.replicas[i];
    forall a | 0 <= a < |s.responses| ensures s.responses[a].replica != p.src {
      assert HasAnswered(s, s.responses[a].replica);
    }
    forall q | q in c'.net && IsRequestOf(q, i, s.nonce) ensures !HasAnswered(s', q.dst) {
      AnsweredBy(s, s', p.msg, q.dst);
    }
    forall q | q in c'.net && IsResponseTo(q, i, s.nonce) ensures !HasAnswered(s', q.src) {
      AnsweredBy(s, s', p.msg, q.src);
    }
  }

  lemma {:induction false} StillAhead(c: Cluster, c': Cluster, i: nat, p: Packet, j: nat)
    requires i < |c.replicas| == |c'.replicas| && Absorbed(c, c', i, p) && Ahead(c, i, j)
    requires p in c.net && IsResponseTo(p, i, c.replicas[i].nonce) && Forward(c.replicas[j], c'.replicas[j])
    requires var s := c.replicas[i]; c'.replicas[i] == s.(responses := s.responses + [p.msg])
    ensures Ahead(c', i, j)
  {
  }

  /** A replica in recovery that stores an answer. */
  lemma {:induction false} StoredOk(c: Cluster, step: Step, c': Cluster, i: nat)
    requires Stepped(c, step, c') && i < c.n && RecovererOk(c, i) && step.Deliver? && SentOk(c, step.p)
    requires step.p in c.net && IsResponseTo(step.p, i, c.replicas[i].nonce) && step.p.src != i && step.p.src < c.n
    requires var s := c.replicas[i];
      c'.replicas[i] == s.(responses := s.responses + [step.p.msg]) && |s.responses| + 1 <= s.F()
    requires c'.net[step.p] < c.net[step.p]
    ensures RecovererOk(c', i)
  {
    AnswerAbsorbed(c, step, c', i);
    AbsorbedOnce(c, c', i, step.p);
    var j :| Ahead(c, i, j);
    StillAhead(c, c', i, step.p, j);
  }

  // Any step

  lemma {:induction false} AtMostOneMore(c: Cluster, step: Step, p: Packet)
    requires Enabled(c, step) && !step.Lose? && IsRecoveryMessage(p.msg)
    ensures Packets(Acting(c, step).0, c.n, Acting(c, step).1.sent)[p] <= 1
  {
    var (i, e, net) := Acting(c, step);
    if AnswersRequest(step) || step.Recover? {
      assert e.sent == [] || e.sent == [e.sent[0]];
      if e.sent != [] {
        OneOutput(i, c.n, e.sent[0]);
      }
    } else if p in Packets(i, c.n, e.sent) {
      PacketOrigin(i, c.n, e.sent, p);
      StepPlain(c, step);
    }
  }

  lemma {:induction false} NetGrowsBy(c: Cluster, step: Step, g: History)
    requires Inv(c, g) && RecoveryInv(c) && Enabled(c, step) && !step.Lose?
    ensures forall p :: p in Next(c, step).net && Next(c, step).net[p] > c.net[p] ==> AddedBy(c, step, Next(c, step), p)
  {
    var c' := Next(c, step);
    forall p | p in c'.net && c'.net[p] > c.net[p] ensures AddedBy(c, step, c', p) {
      AddedPacket(c, step, g, p);
    }
  }

  lemma {:induction false} NetGrowsByOne(c: Cluster, step: Step)
    requires Enabled(c, step) && !step.Lose?
    ensures forall p :: p in Next(c, step).net && IsRecoveryMessage(p.msg) ==> Next(c, step).net[p] <= c.net[p] + 1
  {
    var c' := Next(c, step);
    forall p | p in c'.net && IsRecoveryMessage(p.msg) ensures c'.net[p] <= c.net[p] + 1 {
      AtMostOneMore(c, step, p);
    }
  }

  lemma {:induction false} AllForward(c: Cluster, step: Step, g: History, h: History)
    requires Inv(c, g) && Enabled(c, step) && StepOk(c, step, Next(c, step), g, h)
    ensures |c.replicas| == |Next(c, step).replicas| == c.n
    ensures forall j :: 0 <= j < c.n ==> Forward(c.replicas[j], Next(c, step).replicas[j])
  {
    forall j | 0 <= j < c.n ensures Forward(c.replicas[j], Next(c, step).replicas[j]) {
      StepForward(c, step, g, h, j);
    }
  }

  lemma {:induction false} NextShape(c: Cluster, step: Step)
    requires Enabled(c, step)
    ensures Next(c, step).n == c.n && c.nonces <= Next(c, step).nonces
    ensures step.Lose? ==> Next(c, step).net <= c.net
  {
  }

  lemma {:induction false} SteppedBy(c: Cluster, step: Step, g: History, h: History)
    requires Inv(c, g) && RecoveryInv(c) && Enabled(c, step) && StepOk(c, step, Next(c, step), g, h)
    ensures Stepped(c, step, Next(c, step))
  {
    AllForward(c, step, g, h);
    NextShape(c, step);
    if !step.Lose? {
      NetGrowsBy(c, step, g);
      NetGrowsByOne(c, step);
    }
  }

  /** Whoever enters recovery, somebody else is at least as far. */
  lemma {:induction false} SomebodyIsAhead(c: Cluster, g: History, step: Step) returns (j: nat)
    requires Inv(c, g) && RecoveryInv(c) && Enabled(c, step) && step.Recover?
    ensures j < c.n && j != step.i && AtLeast(c.replicas[j].view, c.replicas[j].op, c.replicas[step.i])
    ensures c.replicas[j].view == c.replicas[step.i].view ==> c.replicas[j].status != ViewChange
  {
    var i, s, inb := step.i, c.replicas[step.i], step.stuck;
    if inb.connection.PeerEnd? && inb.message.view > s.view {
      j := SenderIsAhead(c, g, i, Packet(inb.connection.id, i, inb.message));
    } else {
      j := PrimaryIsAhead(c, g, i);
    }
  }

  lemma {:induction false} SenderIsAhead(c: Cluster, g: History, i: nat, p: Packet) returns (j: nat)
    requires Inv(c, g) && RecoveryInv(c) && i < c.n && p in c.net && p.dst == i && p.msg.view > c.replicas[i].view
    ensures j < c.n && j != i && c.replicas[j].view > c.replicas[i].view
  {
    assert SentOk(c, p) && PacketOk(g, p);
    j := p.src;
  }

  /** The primary of a backup's view is at least as far as the backup. */
  lemma {:induction false} PrimaryIsAhead(c: Cluster, g: History, i: nat) returns (j: nat)
    requires Inv(c, g) && i < c.n && c.replicas[i].status == Normal && !c.replicas[i].IsPrimary()
    ensures j < c.n && j != i && AtLeast(c.replicas[j].view, c.replicas[j].op, c.replicas[i])
    ensures c.replicas[j].view == c.replicas[i].view ==> c.replicas[j].status != ViewChange
  {
    var s := c.replicas[i];
    assert ReplicaOk(g, s, i);
    PrimaryIs(g, s, i);
    j := Primary(g.n, s.view);
    assert ViewOk(g, s.view) && ReachOk(g, i, s.view) && ReachOk(g, j, s.view) && ReplicaOk(g, c.replicas[j], j);
  }

  lemma {:induction false} DoViewChangeStatus(s: State, m: Message)
    requires s.status == ViewChange
    ensures HandleDoViewChange(s, m).state.status != Recovery
  {
  }

  lemma {:induction false} StaysOutOfRecovery(s: State, inb: Inbound)
    requires CanProcess(s, inb.message) && s.status != Recovery
    ensures Dispatch(s, inb).state.status != Recovery
  {
    match inb.message.command
    case StartViewChange =>
      var s' := s.(startViewChanges := {});
      DoViewChangeStatus(s', DoViewChangeMessage(s'));
    case DoViewChange => DoViewChangeStatus(s, inb.message);
    case _ =>
  }

  predicate StoresAnswer(c: Cluster, step: Step, i: nat) {
    && step.Deliver? && step.p.dst == i < |c.replicas| && step.p.msg.command == RecoveryResponse
    && step.p.msg.body.ok && step.p.msg.body.nonce == c.replicas[i].nonce
  }

  /** A replica stays in recovery unmoved unless it stores an answer. */
  lemma {:induction false} Unmoved(c: Cluster, step: Step, i: nat)
    requires Enabled(c, step) && i < |c.replicas| && Next(c, step).replicas[i].status == Recovery
    requires !(step.Recover? && step.i == i) && !StoresAnswer(c, step, i)
    ensures Next(c, step).replicas[i] == c.replicas[i]
  {
    if step.Deliver? && step.p.dst == i && c.replicas[i].status != Recovery {
      StaysOutOfRecovery(c.replicas[i], Inbound(PeerEnd(step.p.src), step.p.msg));
    } else if step.ClientRequest? && step.i == i {
      StaysOutOfRecovery(c.replicas[i], Inbound(ClientEnd(step.socket), step.m));
    }
  }

  lemma {:induction false} Stored(c: Cluster, step: Step, i: nat)
    requires Enabled(c, step) && StoresAnswer(c, step, i) && Next(c, step).replicas[i].status == Recovery
    ensures var s := c.replicas[i];
      Next(c, step).replicas[i] == s.(responses := s.responses + [step.p.msg]) && |s.responses| + 1 <= s.F()
  {
  }

  lemma {:induction false} TakenOff(c: Cluster, step: Step)
    requires Enabled(c, step) && step.Deliver? && IsRecoveryMessage(step.p.msg) && step.p.src != step.p.dst
    ensures Next(c, step).net[step.p] < c.net[step.p]
  {
    var (i, e, net) := Acting(c, step);
    if step.p in Packets(i, c.n, e.sent) {
      PacketOrigin(i, c.n, e.sent, step.p);
    }
  }

  lemma {:induction false} RecovererStep(c: Cluster, step: Step, g: History, i: nat)
    requires Inv(c, g) && RecoveryInv(c) && Enabled(c, step) && Stepped(c, step, Next(c, step))
    requires i < c.n && Next(c, step).replicas[i].status == Recovery
    ensures RecovererOk(Next(c, step), i)
  {
    var c' := Next(c, step);
    if step.Recover? && step.i == i {
      var j := SomebodyIsAhead(c, g, step);
      NewRecovererOk(c, step, c', i, j);
    } else if StoresAnswer(c, step, i) {
      AnswerKept(c, step, g, i);
    } else {
      Unmoved(c, step, i);
      if AnswersRequest(step) && IsRequestOf(step.p, i, c.replicas[i].nonce) {
        assert PacketOk(g, step.p);
        TakenOff(c, step);
        AnsweredOk(c, step, c', i);
      } else {
        BystanderOk(c, step, c', i);
      }
    }
  }

  lemma {:induction false} AnswerKept(c: Cluster, step: Step, g: History, i: nat)
    requires Inv(c, g) && RecoveryInv(c) && Enabled(c, step) && Stepped(c, step, Next(c, step))
    requires i < c.n && Next(c, step).replicas[i].status == Recovery && StoresAnswer(c, step, i)
    ensures RecovererOk(Next(c, step), i)
  {
    assert SentOk(c, step.p) && PacketOk(g, step.p);
    Stored(c, step, i);
    TakenOff(c, step);
    StoredOk(c, step, Next(c, step), i);
  }

  lemma {:induction false} RecoveryStep(c: Cluster, step: Step, g: History, h: History)
    requires Inv(c, g) && RecoveryInv(c) && Enabled(c, step) && StepOk(c, step, Next(c, step), g, h)
    ensures RecoveryInv(Next(c, step))
  {
    var c' := Next(c, step);
    SteppedBy(c, step, g, h);
    forall p | p in c'.net ensures SentOk(c', p) {
      SentKept(c, step, c', p);
    }
    forall i | 0 <= i < |c'.replicas| && c'.replicas[i].status == Recovery ensures RecovererOk(c', i) {
      RecovererStep(c, step, g, i);
    }
  }

  /** The invariants of a cluster of n, with some history. */
  ghost predicate Sound(n: ClusterSize, c: Cluster) {
    c.n == n && RecoveryInv(c) && exists g :: Inv(c, g)
  }

  lemma {:induction false} SoundStep(n: ClusterSize, c: Cluster, step: Step, c': Cluster)
    requires Sound(n, c) && n <= 3 && Enabled(c, step) && c' == Next(c, step)
    ensures RecoversForward(c, step) && Sound(n, c')
  {
    var g :| Inv(c, g);
    RecoveryGoesForward(c, g, step);
    var h := AnyStep(c, step, g);
    RecoveryStep(c, step, g, h);
  }

  lemma {:induction false} SoundInRun(n: ClusterSize, run: seq<Cluster>, steps: seq<Step>, t: nat)
    requires (n == 1 || n == 3) && IsRun(n, run, steps) && t < |run|
    ensures Sound(n, run[t])
  {
    if t == 0 {
      InitialOk(n);
    } else {
      SoundInRun(n, run, steps, t - 1);
      SoundStep(n, run[t - 1], steps[t - 1], run[t]);
    }
  }

  /** Every run of a cluster of at most three replicas is safe. */
  lemma {:induction false} EveryRunIsSafe(n: ClusterSize, run: seq<Cluster>, steps: seq<Step>)
    requires (n == 1 || n == 3) && IsRun(n, run, steps)
    ensures SafeRun(n, run, steps)
  {
    forall k | 0 <= k < |steps| ensures RecoversForward(run[k], steps[k]) {
      SoundInRun(n, run, steps, k);
      SoundStep(n, run[k], steps[k], run[k + 1]);
    }
  }

  /** Agreement without conditions, for the three-replica cluster that the server runs:
      recoveries and view changes in any number and order. */
  lemma {:induction false} AgreementOfThree(run: seq<Cluster>, steps: seq<Step>, t: nat, a: nat, u: nat, b: nat, k: nat)
    requires IsRun(3, run, steps) && InRun(run, t, a) && InRun(run, u, b)
    requires 1 <= k <= run[t].replicas[a].lastExecuted && k <= run[u].replicas[b].lastExecuted
    ensures k in run[t].replicas[a].log && k in run[u].replicas[b].log
    ensures run[t].replicas[a].log[k].Bare() == run[u].replicas[b].log[k].Bare()
  {
    EveryRunIsSafe(3, run, steps);
    Agreement(3, run, steps, t, a, u, b, k);
  }
}
