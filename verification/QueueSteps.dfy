/** Working through a queue is taking steps of the cluster: each event of the queue loop is
    a delivery, a loss, a view change or a recovery that the cluster could take. */
module QueueSteps {
  import opened Types
  import opened Handlers
  import opened Cluster
  import opened Queue

  /** The cluster can go from c to c' by `steps`. */
  ghost predicate Path(c: Cluster, steps: seq<Step>, c': Cluster)
    decreases |steps|
  {
    if steps == [] then c' == c
    else Enabled(c, steps[0]) && Path(Next(c, steps[0]), steps[1..], c')
  }

  lemma {:induction false} TailOfJoin<T>(a: seq<T>, b: seq<T>)
    requires a != []
    ensures a + b != [] && (a + b)[0] == a[0] && (a + b)[1..] == a[1..] + b
  {
  }

  lemma {:induction false} PathJoin(a: Cluster, first: seq<Step>, b: Cluster, second: seq<Step>, c: Cluster)
    requires Path(a, first, b) && Path(b, second, c)
    ensures Path(a, first + second, c)
    decreases |first|
  {
    if first == [] {
      assert first + second == second;
    } else {
      TailOfJoin(first, second);
      PathJoin(Next(a, first[0]), first[1..], b, second, c);
    }
  }

  lemma {:induction false} OneStepPath(c: Cluster, step: Step)
    requires Enabled(c, step)
    ensures Path(c, [step], Next(c, step))
  {
    assert [step][1..] == [];
  }

  // Queued messages as packets

  /** The packets that messages queued at replica i came in. */
  function Arrived(i: nat, q: seq<Inbound>): multiset<Packet> {
    if q == [] then multiset{} else Arrived(i, q[..|q| - 1]) + ArrivedOne(i, q[|q| - 1])
  }

  function ArrivedOne(i: nat, inb: Inbound): multiset<Packet> {
    if inb.connection.PeerEnd? then multiset{Packet(inb.connection.id, i, inb.message)} else multiset{}
  }

  /** From a peer; or from a client, a request, a ping or a pong. */
  predicate Proper(inb: Inbound) {
    inb.connection.PeerEnd? || (inb.connection.ClientEnd? && (inb.message.command == Request || Greeting(inb.message)))
  }

  predicate Greeting(m: Message) {
    m.command == Ping || m.command == Pong
  }

  lemma {:induction false} ArrivedJoin(i: nat, a: seq<Inbound>, b: seq<Inbound>)
    ensures Arrived(i, a + b) == Arrived(i, a) + Arrived(i, b)
  {
    if b == [] {
      assert a + b == a;
    } else {
      var k := |b| - 1;
      assert (a + b)[..|a + b| - 1] == a + b[..k];
      ArrivedJoin(i, a, b[..k]);
    }
  }

  lemma {:induction false} ArrivedSingle(i: nat, inb: Inbound)
    ensures Arrived(i, [inb]) == ArrivedOne(i, inb)
  {
    assert [inb][..0] == [];
  }

  lemma {:induction false} PacketsJoin(src: nat, n: ClusterSize, a: seq<Output>, b: seq<Output>)
    ensures Packets(src, n, a + b) == Packets(src, n, a) + Packets(src, n, b)
  {
    if b == [] {
      assert a + b == a;
    } else {
      var k := |b| - 1;
      assert (a + b)[..|a + b| - 1] == a + b[..k];
      PacketsJoin(src, n, a, b[..k]);
    }
  }

  // One event

  /** c after replica i has moved as e says and `gone` has left the network. */
  function Moved(c: Cluster, i: nat, e: Effect, gone: multiset<Packet>, nonces: set<U128>): Cluster
    requires i < |c.replicas|
  {
    c.(replicas := c.replicas[i := e.state], net := c.net - gone + Packets(i, c.n, e.sent), nonces := nonces)
  }

  /** What is still on the network does not depend on the order of coming and going. */
  lemma {:induction false} MovedTwice(c: Cluster, i: nat, e: Effect, gone: multiset<Packet>, f: Effect, gone': multiset<Packet>,
                                      nonces: set<U128>, nonces': set<U128>)
    requires i < |c.replicas| && gone + gone' <= c.net
    ensures Moved(Moved(c, i, e, gone, nonces), i, f, gone', nonces') == Moved(c, i, Then(e, f), gone + gone', nonces')
  {
    PacketsJoin(i, c.n, e.sent, f.sent);
    var x, y := Packets(i, c.n, e.sent), Packets(i, c.n, f.sent);
    NetTwice(c.net, gone, x, gone', y);
    assert c.replicas[i := e.state][i := f.state] == c.replicas[i := f.state];
  }

  lemma {:induction false} NetTwice(net: multiset<Packet>, gone: multiset<Packet>, x: multiset<Packet>,
                                    gone': multiset<Packet>, y: multiset<Packet>)
    requires gone + gone' <= net
    ensures net - gone + x - gone' + y == net - (gone + gone') + (x + y)
  {
    forall p ensures (net - gone + x - gone' + y)[p] == (net - (gone + gone') + (x + y))[p] {
      assert (gone + gone')[p] <= net[p];
    }
  }

  lemma {:induction false} HandledStep(c: Cluster, i: nat, inb: Inbound) returns (step: Step)
    requires ValidId(c, i) && ArrivedOne(i, inb) <= c.net
    requires inb.connection.PeerEnd? || (inb.connection.ClientEnd? && inb.message.command == Request)
    requires !Stale(c.replicas[i], inb.message) && CanProcess(c.replicas[i], inb.message)
    ensures Enabled(c, step) && Next(c, step) == Moved(c, i, Dispatch(c.replicas[i], inb), ArrivedOne(i, inb), c.nonces)
  {
    if inb.connection.PeerEnd? {
      var p := Packet(inb.connection.id, i, inb.message);
      assert p in ArrivedOne(i, inb);
      step := Deliver(p);
    } else {
      step := ClientRequest(i, inb.connection.socket, inb.message);
      assert c.net - multiset{} == c.net;
    }
  }

  /** What concerns only a client leaves the cluster as it is. */
  lemma {:induction false} NothingMoves(c: Cluster, i: nat, sent: seq<Output>)
    requires ValidId(c, i) && (sent == [] || exists socket, m :: sent == [Send(ClientEnd(socket), m)])
    ensures Moved(c, i, Effect(c.replicas[i], sent), multiset{}, c.nonces) == c
  {
    if sent != [] {
      OneOutput(i, c.n, sent[0]);
    }
    assert c.net - multiset{} + multiset{} == c.net && c.replicas[i := c.replicas[i]] == c.replicas;
  }

  lemma {:induction false} HandledSteps(c: Cluster, i: nat, inb: Inbound) returns (steps: seq<Step>)
    requires ValidId(c, i) && Proper(inb) && ArrivedOne(i, inb) <= c.net
    requires !Stale(c.replicas[i], inb.message) && CanProcess(c.replicas[i], inb.message)
    ensures Path(c, steps, Moved(c, i, Dispatch(c.replicas[i], inb), ArrivedOne(i, inb), c.nonces))
  {
    if inb.connection.ClientEnd? && Greeting(inb.message) {
      NothingMoves(c, i, Dispatch(c.replicas[i], inb).sent);
      steps := [];
    } else {
      var step := HandledStep(c, i, inb);
      OneStepPath(c, step);
      steps := [step];
    }
  }

  lemma {:induction false} DiscardedSteps(c: Cluster, i: nat, inb: Inbound) returns (steps: seq<Step>)
    requires ValidId(c, i) && ArrivedOne(i, inb) <= c.net
    ensures Path(c, steps, Moved(c, i, Effect(c.replicas[i], []), ArrivedOne(i, inb), c.nonces))
  {
    if inb.connection.PeerEnd? {
      var p := Packet(inb.connection.id, i, inb.message);
      assert p in ArrivedOne(i, inb);
      OneStepPath(c, Lose(p));
      steps := [Lose(p)];
      assert c.replicas[i := c.replicas[i]] == c.replicas;
      assert Packets(i, c.n, []) == multiset{};
      assert c.net - multiset{p} + multiset{} == c.net - multiset{p};
    } else {
      NothingMoves(c, i, []);
      steps := [];
    }
  }

  lemma {:induction false} LeftViewStep(c: Cluster, i: nat)
    requires ValidId(c, i) && c.replicas[i].status == Normal
    ensures Enabled(c, LeaveView(i))
    ensures Next(c, LeaveView(i)) == Moved(c, i, InitiateViewChange(c.replicas[i]), multiset{}, c.nonces)
  {
    assert c.net - multiset{} == c.net;
  }

  /** The whole of a queue can be lost. */
  lemma {:induction false} LoseAll(c: Cluster, i: nat, q: seq<Inbound>) returns (steps: seq<Step>)
    requires ValidId(c, i) && Arrived(i, q) <= c.net
    ensures Path(c, steps, c.(net := c.net - Arrived(i, q)))
    decreases |q|
  {
    if q == [] {
      steps := [];
      assert c.net - multiset{} == c.net;
    } else {
      var k := |q| - 1;
      var before, last := Arrived(i, q[..k]), ArrivedOne(i, q[k]);
      steps := LoseAll(c, i, q[..k]);
      if q[k].connection.PeerEnd? {
        var p := Packet(q[k].connection.id, i, q[k].message);
        var c' := c.(net := c.net - before);
        assert p in last && (before + last)[p] <= c.net[p];
        OneStepPath(c', Lose(p));
        assert c.net - before - last == c.net - (before + last);
        PathJoin(c, steps, c', [Lose(p)], Next(c', Lose(p)));
        steps := steps + [Lose(p)];
      } else {
        assert before + last == before;
      }
    }
  }

  lemma {:induction false} RecoverNext(c: Cluster, i: nat, inb: Inbound, nonce: U128)
    requires ValidId(c, i) && Waiting(c, i, inb) && nonce !in c.nonces
    requires var s, m := c.replicas[i], inb.message;
      s.status == Normal && !Stale(s, m) && !CanProcess(s, m) && StuckAction(s, m) == StartRecovery
    ensures Enabled(c, Recover(i, inb, nonce))
    ensures Next(c, Recover(i, inb, nonce)) ==
      Moved(c, i, InitiateRecovery(c.replicas[i], nonce), multiset{}, c.nonces + {nonce})
  {
    assert c.net - multiset{} == c.net;
  }

  lemma {:induction false} FirstArrived(i: nat, q: seq<Inbound>)
    requires q != []
    ensures ArrivedOne(i, q[0]) <= Arrived(i, q)
  {
    assert q == [q[0]] + q[1..];
    ArrivedJoin(i, [q[0]], q[1..]);
    ArrivedSingle(i, q[0]);
  }

  lemma {:induction false} BeganRecoverySteps(c: Cluster, i: nat, dropped: seq<Inbound>, nonce: U128) returns (steps: seq<Step>)
    requires ValidId(c, i) && Arrived(i, dropped) <= c.net && nonce !in c.nonces
    requires Admits(c.replicas[i], BeganRecovery(dropped)) && Proper(dropped[0])
    ensures Path(c, steps, Moved(c, i, InitiateRecovery(c.replicas[i], nonce), Arrived(i, dropped), c.nonces + {nonce}))
  {
    var step := Recover(i, dropped[0], nonce);
    var e, gone := InitiateRecovery(c.replicas[i], nonce), Arrived(i, dropped);
    FirstArrived(i, dropped);
    FrontWaits(c, i, dropped[0]);
    RecoverNext(c, i, dropped[0], nonce);
    OneStepPath(c, step);
    var c' := Next(c, step);
    LoseAfter(c.net, gone, Packets(i, c.n, e.sent));
    var rest := LoseAll(c', i, dropped);
    PathJoin(c, [step], c', rest, c'.(net := c'.net - gone));
    steps := [step] + rest;
  }

  lemma {:induction false} LoseAfter(net: multiset<Packet>, gone: multiset<Packet>, x: multiset<Packet>)
    requires gone <= net
    ensures gone <= net - multiset{} + x && net - multiset{} + x - gone == net - gone + x
  {
  }

  lemma {:induction false} FrontWaits(c: Cluster, i: nat, inb: Inbound)
    requires ValidId(c, i) && Proper(inb) && ArrivedOne(i, inb) <= c.net && !CanProcess(c.replicas[i], inb.message)
    ensures Waiting(c, i, inb)
  {
    if inb.connection.PeerEnd? {
      assert Packet(inb.connection.id, i, inb.message) in ArrivedOne(i, inb);
    }
  }

  /** Whatever event the queue loop takes, the cluster can take. */
  lemma {:induction false} EventSteps(c: Cluster, i: nat, event: Event, nonce: U128) returns (steps: seq<Step>)
    requires ValidId(c, i) && Admits(c.replicas[i], event) && (event.BeganRecovery? ==> nonce !in c.nonces)
    requires (forall inb :: inb in Taken([event]) ==> Proper(inb)) && Arrived(i, Taken([event])) <= c.net
    ensures Path(c, steps, Moved(c, i, Happens(c.replicas[i], event, nonce), Arrived(i, Taken([event])),
                                 if event.BeganRecovery? then c.nonces + {nonce} else c.nonces))
  {
    TakenOne(event);
    match event
    case Discarded(inb) =>
      assert inb in Taken([event]);
      ArrivedSingle(i, inb);
      steps := DiscardedSteps(c, i, inb);
    case Handled(inb) =>
      assert inb in Taken([event]);
      ArrivedSingle(i, inb);
      steps := HandledSteps(c, i, inb);
    case LeftView(_) =>
      LeftViewStep(c, i);
      OneStepPath(c, LeaveView(i));
      steps := [LeaveView(i)];
    case BeganRecovery(dropped) =>
      assert dropped[0] in Taken([event]);
      steps := BeganRecoverySteps(c, i, dropped, nonce);
  }

  // All of them

  lemma {:induction false} AdmissibleBefore(s: State, events: seq<Event>, nonce: U128)
    requires Admissible(s, events, nonce) && events != []
    ensures var k := |events| - 1;
      Admissible(s, events[..k], nonce) && Admits(Trace(s, events[..k], nonce).state, events[k])
  {
    var k := |events| - 1;
    forall j | 0 <= j < k ensures Admits(StateAfter(s, events[..k][..j], nonce), events[..k][j]) {
      assert events[..k][..j] == events[..j];
    }
    assert Admits(StateAfter(s, events[..k], nonce), events[k]);
  }

  lemma {:induction false} NothingMoved(c: Cluster, i: nat)
    requires ValidId(c, i)
    ensures Moved(c, i, Effect(c.replicas[i], []), multiset{}, c.nonces) == c
  {
    assert c.replicas[i := c.replicas[i]] == c.replicas && c.net - multiset{} + multiset{} == c.net;
  }

  lemma {:induction false} TakenBefore(net: multiset<Packet>, i: nat, before: seq<Event>, last: Event)
    requires (forall inb :: inb in Taken(before + [last]) ==> Proper(inb)) && Arrived(i, Taken(before + [last])) <= net
    ensures (forall inb :: inb in Taken(before) ==> Proper(inb)) && (forall inb :: inb in Taken([last]) ==> Proper(inb))
    ensures Arrived(i, Taken(before + [last])) == Arrived(i, Taken(before)) + Arrived(i, Taken([last]))
    ensures Arrived(i, Taken(before)) <= net
  {
    TakenLast(i, before, last);
    assert forall inb :: inb in Taken(before) || inb in Taken([last]) ==> inb in Taken(before) + Taken([last]);
  }

  lemma {:induction false} TakenLast(i: nat, before: seq<Event>, last: Event)
    ensures Taken(before + [last]) == Taken(before) + Taken([last])
    ensures Arrived(i, Taken(before + [last])) == Arrived(i, Taken(before)) + Arrived(i, Taken([last]))
  {
    TakenJoin(before, [last]);
    ArrivedJoin(i, Taken(before), Taken([last]));
  }

  lemma {:induction false} EventsSteps(c: Cluster, i: nat, events: seq<Event>, nonce: U128) returns (steps: seq<Step>, nonces: set<U128>)
    requires ValidId(c, i) && Admissible(c.replicas[i], events, nonce) && nonce !in c.nonces
    requires forall k :: 0 <= k < |events| - 1 ==> !events[k].BeganRecovery?
    requires (forall inb :: inb in Taken(events) ==> Proper(inb)) && Arrived(i, Taken(events)) <= c.net
    ensures Path(c, steps, Moved(c, i, Trace(c.replicas[i], events, nonce), Arrived(i, Taken(events)), nonces))
    ensures (forall k :: 0 <= k < |events| ==> !events[k].BeganRecovery?) ==> nonces == c.nonces
    decreases |events|
  {
    var s := c.replicas[i];
    if events == [] {
      steps, nonces := [], c.nonces;
      NothingMoved(c, i);
    } else {
      var k := |events| - 1;
      var before, last := events[..k], events[k];
      assert events == before + [last];
      TakenBefore(c.net, i, before, last);
      AdmissibleBefore(s, events, nonce);
      steps, nonces := EventsSteps(c, i, before, nonce);
      TraceOneMore(s, before, last, nonce);
      steps, nonces := OneMoreEvent(c, steps, i, Trace(s, before, nonce), Arrived(i, Taken(before)), nonces, last, nonce);
    }
  }

  lemma {:induction false} OneMoreEvent(c: Cluster, steps: seq<Step>, i: nat, e: Effect, gone: multiset<Packet>,
                                        nonces: set<U128>, event: Event, nonce: U128)
    returns (steps': seq<Step>, nonces': set<U128>)
    requires ValidId(c, i) && Path(c, steps, Moved(c, i, e, gone, nonces))
    requires Admits(e.state, event) && (event.BeganRecovery? ==> nonce !in nonces)
    requires (forall inb :: inb in Taken([event]) ==> Proper(inb)) && gone + Arrived(i, Taken([event])) <= c.net
    ensures Path(c, steps', Moved(c, i, Then(e, Happens(e.state, event, nonce)), gone + Arrived(i, Taken([event])), nonces'))
    ensures !event.BeganRecovery? ==> nonces' == nonces
  {
    var c1, gone' := Moved(c, i, e, gone, nonces), Arrived(i, Taken([event]));
    StillThere(c.net, gone, gone', Packets(i, c.n, e.sent));
    var more := EventSteps(c1, i, event, nonce);
    nonces' := if event.BeganRecovery? then nonces + {nonce} else nonces;
    var f := Happens(e.state, event, nonce);
    MovedTwice(c, i, e, gone, f, gone', nonces, nonces');
    PathJoin(c, steps, c1, more, Moved(c1, i, f, gone', nonces'));
    steps' := steps + more;
  }

  lemma {:induction false} StillThere(net: multiset<Packet>, gone: multiset<Packet>, gone': multiset<Packet>, x: multiset<Packet>)
    requires gone + gone' <= net
    ensures gone' <= net - gone + x
  {
    forall p ensures gone'[p] <= (net - gone + x)[p] {
      assert (gone + gone')[p] <= net[p];
    }
  }

  /** Processing a queue of messages that have arrived is a sequence of steps of the
      cluster, in which only this replica moves, to the state that the queue loop reaches,
      and the network loses what the loop took and gains what it sent. */
  lemma {:induction false} QueueIsSteps(c: Cluster, i: nat, q: seq<Inbound>, nonce: U128) returns (steps: seq<Step>, c': Cluster)
    requires ValidId(c, i) && nonce !in c.nonces && (forall inb :: inb in q ==> Proper(inb)) && Arrived(i, q) <= c.net
    ensures Path(c, steps, c') && c'.n == c.n
    ensures var r := ProcessQueue(c.replicas[i], q, nonce);
      && c'.replicas == c.replicas[i := r.state]
      && c'.net == c.net - Arrived(i, Taken(r.events)) + Packets(i, c.n, r.sent)
      && Arrived(i, r.queue) <= c'.net
  {
    var s := c.replicas[i];
    var r := ProcessQueue(s, q, nonce);
    QueueIsFifo(s, q, nonce);
    QueueExplained(s, q, nonce);
    forall k | 0 <= k < |r.events| - 1 ensures !r.events[k].BeganRecovery? {
      if r.events[k].BeganRecovery? {
        RecoveryComesLast(s, q, nonce, k);
      }
    }
    ArrivedJoin(i, Taken(r.events), r.queue);
    var nonces;
    steps, nonces := EventsSteps(c, i, r.events, nonce);
    c' := Moved(c, i, Effect(r.state, r.sent), Arrived(i, Taken(r.events)), nonces);
    StillThere(c.net, Arrived(i, Taken(r.events)), Arrived(i, r.queue), Packets(i, c.n, r.sent));
  }
}
