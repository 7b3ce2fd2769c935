/**
 Message numbers between a Ruby client and the hub over two in-order channels: each side counts what
 it sends and checks what it receives against a counter of its own. The hub's side is the connection
 of module Connections; what travels are the bytes of module Headers.
 */
module Ids {
  import opened Bytes
  import opened Stackish
  import opened Headers
  import Ruby
  import Connections

  type Packet = (nat, Tree)

  /**
   The client's two counters, the hub's connection and the messages in flight. `ended`: the mendicant's
   relay has ended on a message. `dropped`: the hub has aborted over a message it would have served.
   `outOfSync`: the client has raised over a message's number.
   */
  datatype Link = Link(
    clientSend: nat, clientRecv: nat, hub: Connections.View, up: seq<Packet>, down: seq<Packet>,
    ended: bool, dropped: bool, outOfSync: bool)

  /** A connection that has just been opened. */
  const OPENED := Connections.View(Connections.IDLE, true, true, true, false, None, false, 1, 1, true, [], [])

  const START := Link(0, 0, OPENED, [], [], false, false, false)

  datatype Step = Push(body: Tree) | Service(served: bool) | Forward(body: Tree, delivered: bool) | Pull

  /** A body the hub can take: its data is the first node inside. */
  predicate Pushable(b: Tree) { Document(b) && b.child.Node? }

  /** A body the client can read. */
  predicate Pullable(b: Tree) { Document(b) && Ruby.LineFree(b) }

  predicate Usable(s: Step) {
    match s
    case Push(b) => Pushable(b)
    case Forward(b, _) => Pullable(b)
    case _ => true
  }

  predicate AllUsable(steps: seq<Step>) { forall i :: 0 <= i < |steps| ==> Usable(steps[i]) }

  /** How a message with this header and body turns out at the hub. */
  function Arrival(h: Tree, b: Tree): Connections.Fate {
    Connections.Fate(true, true, true, true, MessageId(h, b), if b.Node? then b.child else Nil, true)
  }

  /** Proxy_listener_recv takes the next message from the client; what it can read goes on to the hub. */
  function Serviced(l: Link, served: bool): Link
    requires InFlight(l)
  {
    if l.up == [] || l.ended then l else
      match ReadNodes(Pushed(l.up[0].0, l.up[0].1))
      case None => l.(up := l.up[1..], ended := true)
      case Some((h, b)) =>
        var hub := Connections.IncomingSpec(l.hub, true, Arrival(h, b), served).0;
        var aborts := l.hub.cs == Connections.IDLE && served && hub.cs != Connections.IDLE;
        l.(up := l.up[1..], hub := hub, dropped := l.dropped || aborts)
  }

  /** A round of the hub's sending; what is delivered travels to the client. */
  function Forwarded(l: Link, b: Tree, delivered: bool): Link {
    var hub := Connections.OutgoingSpec(l.hub, true, delivered, Arrival(Nil, Nil)).0;
    var sent := delivered && |hub.sent| > |l.hub.sent|;
    l.(hub := hub, down := l.down + if sent then [(hub.sent[|hub.sent| - 1], b)] else [])
  }

  /** Client#pull. */
  function Pulled(l: Link): Link
    requires InFlight(l)
  {
    if l.down == [] then l else
      var id := PulledId(l.down[0].0, l.down[0].1);
      l.(clientRecv := l.clientRecv + 1, down := l.down[1..], outOfSync := l.outOfSync || id != Some(l.clientRecv + 1))
  }

  /** The client counts without bound from 0, increment first. */
  function Do(l: Link, s: Step): Link
    requires Usable(s) && InFlight(l)
  {
    match s
    case Push(b) => l.(clientSend := l.clientSend + 1, up := l.up + [(l.clientSend + 1, b)])
    case Service(served) => Serviced(l, served)
    case Forward(b, delivered) => Forwarded(l, b, delivered)
    case Pull => Pulled(l)
  }

  predicate InFlight(l: Link) {
    && (forall i :: 0 <= i < |l.up| ==> Pushable(l.up[i].1))
    && (forall i :: 0 <= i < |l.down| ==> Pullable(l.down[i].1))
  }

  lemma PushReads(n: nat, b: Tree)
    requires Pushable(b)
    ensures ReadNodes(Pushed(n, b)) == if n < TWO64 then Some((HeaderNode(n), b)) else None
    ensures MessageId(HeaderNode(n), b) == Some(n)
  {
    PushedArrives(n, b);
    NumberArrives(n, b);
  }

  lemma PullReads(n: nat, b: Tree)
    requires Pullable(b) && n < TWO64
    ensures PulledId(n, b) == Some(n)
  {
    PulledArrives(n, b);
  }

  // ---------------------------------------------------------------- what the hub does with them

  lemma HubTakes(v: Connections.View, h: Tree, b: Tree, served: bool)
    requires v.cs == Connections.IDLE && v.client && v.joined && MessageId(h, b) == Some(v.recvCount)
    ensures Connections.IncomingSpec(v, true, Arrival(h, b), served).0 ==
      var w := v.(recvCount := Connections.Succ(v.recvCount), serviced := v.serviced + [v.recvCount]);
      if served then w.(recvMsg := None, recvPending := false)
      else w.(cs := Connections.ABORTING, recvMsg := Some(v.recvCount), recvPending := true)
  {
    var fate := Arrival(h, b);
    var u := v.(recvPending := true);
    hide MessageId, Connections.ExecSpec;
    Connections.Receives(u, fate, served);
    Connections.Delivers(u.(cs := Connections.DELIVERING, recvMsg := Some(v.recvCount)), fate, served);
  }

  lemma HubSends(v: Connections.View, delivered: bool)
    requires v.cs == Connections.IDLE && v.client && v.joined
    ensures Connections.OutgoingSpec(v, true, delivered, Arrival(Nil, Nil)).0 ==
      v.(cs := if delivered then Connections.IDLE else Connections.ABORTING, sendMsg := false,
         sendCount := Connections.Succ(v.sendCount), sent := v.sent + [v.sendCount])
  {
    var fate := Arrival(Nil, Nil);
    hide Connections.ExecSpec;
    var u := v.(sendMsg := true);
    Connections.QueuedMember(u, fate);
    Connections.Reports(Connections.Sending(u.(cs := Connections.SENDING)), delivered, fate);
  }

  /** Away from idle, nothing is sent and nothing leads back. */
  lemma HubTakesNoMore(v: Connections.View, h: Tree, b: Tree, served: bool)
    requires Connections.Leaving(v)
    ensures Connections.Leaving(Connections.IncomingSpec(v, true, Arrival(h, b), served).0)
  {
    hide Arrival, Connections.ExecSpec;
    var u := v.(recvPending := true);
    Connections.NeverBack(u, 'R', Arrival(h, b), served);
    Connections.NeverBack(Connections.ExecSpec(u, 'R', Arrival(h, b), served, 1), 's', Arrival(h, b), served);
  }

  lemma HubSendsNoMore(v: Connections.View, delivered: bool)
    requires Connections.Leaving(v)
    ensures var w := Connections.OutgoingSpec(v, true, delivered, Arrival(Nil, Nil)).0;
      Connections.Leaving(w) && w.sent == v.sent
  {
    hide Arrival, Connections.ExecSpec;
    Connections.NeverBack(v.(sendMsg := true), 'Q', Arrival(Nil, Nil), false);
  }

  // ---------------------------------------------------------------- the order

  /** The hub's numbers are the client's until they reach 2^64. */
  lemma IdFits(n: nat)
    ensures Connections.Id(n) < TWO64 && (Connections.Id(n) == n + 1 <==> n + 1 < TWO64)
  {}

  /** How many of the client's messages have been taken off the wire. */
  function Taken(l: Link): int { l.clientSend - |l.up| }

  predicate UpOrder(l: Link) {
    && (forall i :: 0 <= i < |l.up| ==> l.up[i].0 == Taken(l) + 1 + i)
    && 0 <= Taken(l) && (if l.ended then Taken(l) == TWO64 else Taken(l) < TWO64)
    && (l.hub.cs == Connections.IDLE && !l.ended ==> l.hub.recvCount == Connections.Id(Taken(l)))
  }

  predicate DownOrder(l: Link) {
    && (forall i :: 0 <= i < |l.down| ==> l.down[i].0 == Connections.Id(l.clientRecv + i))
    && (l.hub.cs == Connections.IDLE ==> l.hub.sendCount == Connections.Id(l.clientRecv + |l.down|))
  }

  /** The messages in flight carry consecutive numbers that continue what the receiver has seen. */
  predicate InOrder(l: Link) {
    && InFlight(l) && UpOrder(l) && DownOrder(l) && !l.dropped && (l.outOfSync <==> l.clientRecv >= TWO64)
    && (if l.hub.cs == Connections.IDLE then l.hub.client && l.hub.joined else Connections.Leaving(l.hub))
  }

  lemma PushKeepsOrder(l: Link, b: Tree)
    requires InOrder(l) && Pushable(b)
    ensures InOrder(Do(l, Push(b)))
  {
    hide Pushable, Pullable, Connections.Leaving;
  }

  /** Taking a message: its number continues the hub's count if it fits 64 bits, and ends the relay if not. */
  lemma ServiceDoes(l: Link, served: bool)
    requires InOrder(l) && l.up != [] && !l.ended
    ensures var n, m := Taken(l) + 1, Serviced(l, served);
      && l.up[0].0 == n <= TWO64 && !m.dropped && m == l.(up := l.up[1..], hub := m.hub, ended := n == TWO64)
      && (n == TWO64 ==> m.hub == l.hub)
      && (n < TWO64 && l.hub.cs != Connections.IDLE ==> Connections.Leaving(m.hub))
      && (n < TWO64 && l.hub.cs == Connections.IDLE ==>
            && m.hub.serviced == l.hub.serviced + [n] && m.hub.recvCount == Connections.Id(n)
            && m.hub.sendCount == l.hub.sendCount && m.hub.client && m.hub.joined
            && m.hub.cs == if served then Connections.IDLE else Connections.ABORTING)
  {
    hide ReadNodes, Pushed, Pushable, Pullable, MessageId, HeaderNode, DownOrder;
    hide Connections.IncomingSpec, Connections.Leaving, Connections.Id, Connections.Succ;
    var (n, b) := l.up[0];
    assert n == Taken(l) + 1;
    PushReads(n, b);
    IdFits(n - 1);
    Connections.NextId(n - 1);
    if n < TWO64 {
      if l.hub.cs == Connections.IDLE {
        HubTakes(l.hub, HeaderNode(n), b, served);
      } else {
        HubTakesNoMore(l.hub, HeaderNode(n), b, served);
      }
    }
  }

  lemma ServiceKeepsOrder(l: Link, served: bool)
    requires InOrder(l) && l.up != [] && !l.ended
    ensures InOrder(Serviced(l, served))
  {
    hide Serviced, Pushable, Pullable, Connections.Id;
    ServiceDoes(l, served);
    assert forall i :: 0 <= i < |l.up[1..]| ==> l.up[1..][i] == l.up[i + 1];
  }

  lemma ForwardKeepsOrder(l: Link, b: Tree, delivered: bool)
    requires InOrder(l) && Pullable(b)
    ensures InOrder(Forwarded(l, b, delivered))
  {
    hide Pushable, Pullable, Connections.OutgoingSpec, Connections.Id;
    Connections.NextId(l.clientRecv + |l.down|);
    if l.hub.cs == Connections.IDLE { HubSends(l.hub, delivered); } else { HubSendsNoMore(l.hub, delivered); }
  }

  lemma SameUp(l: Link, m: Link)
    ensures l.clientSend == m.clientSend && l.hub == m.hub && l.up == m.up && l.ended == m.ended ==>
      UpOrder(l) == UpOrder(m)
  {}

  /** The client is out of sync exactly from message 2^64 on, whose number the hub writes as 0. */
  lemma PullKeepsOrder(l: Link)
    requires InOrder(l) && l.down != []
    ensures InOrder(Pulled(l))
  {
    hide PulledId, Pushable, Pullable, Connections.Leaving, Connections.Id, UpOrder;
    var (n, b) := l.down[0];
    assert n == Connections.Id(l.clientRecv + 0);
    IdFits(l.clientRecv);
    PullReads(n, b);
    SameUp(l, Pulled(l));
    assert forall i :: 0 <= i < |l.down[1..]| ==> l.down[1..][i] == l.down[i + 1];
  }

  /** Every step keeps the order, whatever the numbers have come to. */
  lemma DoKeepsOrder(l: Link, s: Step)
    requires InOrder(l) && Usable(s)
    ensures InOrder(Do(l, s))
  {
    hide InOrder, Pushable, Pullable;
    match s {
      case Push(b) => PushKeepsOrder(l, b);
      case Service(served) => if l.up != [] && !l.ended { ServiceKeepsOrder(l, served); }
      case Forward(b, delivered) => ForwardKeepsOrder(l, b, delivered);
      case Pull => if l.down != [] { PullKeepsOrder(l); }
    }
  }

  /** The link after any run of steps. */
  ghost function Run(l: Link, steps: seq<Step>): (r: Link)
    requires InOrder(l) && AllUsable(steps)
    ensures InOrder(r)
    decreases |steps|
  {
    if steps == [] then l else
      DoKeepsOrder(l, steps[0]);
      Run(Do(l, steps[0]), steps[1..])
  }

  lemma Starts()
    ensures InOrder(START)
  {}

  /** The connection a run starts with is what a new one, opened without a failure, has become. */
  lemma StartIsReached(good: Connections.Fate, served: bool)
    requires good.peerMade && good.confirming && good.loggedIn && good.tuned
    ensures var blank :=
      Connections.View(Connections.START, true, false, false, false, None, false, 0, 0, false, [], []);
      var keyed := Connections.ExecSpec(Connections.ExecSpec(blank, 'O', good, served, 1), 'P', good, served, 1);
      Connections.ExecSpec(Connections.ExecSpec(keyed, '1', good, served, 1), '1', good, served, 1) == OPENED
  {
    hide Connections.ExecSpec;
    Connections.OpensToIdle(
      Connections.View(Connections.START, true, false, false, false, None, false, 0, 0, false, [], []), good, served);
  }

  /**
   Over every run, of any length: the hub never aborts over a number; the mendicant's relay has ended
   exactly when it has read message 2^64; and the client is out of sync exactly when it has pulled 2^64 messages.
   */
  lemma RunOutcome(steps: seq<Step>)
    requires AllUsable(steps)
    ensures InOrder(START)
    ensures var l := Run(START, steps);
      && !l.dropped && (l.ended <==> Taken(l) == TWO64) && (l.outOfSync <==> l.clientRecv >= TWO64)
  {
    Starts();
    hide InFlight, DownOrder, Connections.Leaving, Run;
    var l := Run(START, steps);
  }

  lemma InOrderFlies(l: Link)
    requires InOrder(l)
    ensures InFlight(l)
  {}

  lemma DoCounts(l: Link, s: Step)
    requires InFlight(l) && Usable(s)
    ensures Do(l, s).clientSend <= l.clientSend + 1
    ensures Do(l, s).clientRecv + |Do(l, s).down| <= l.clientRecv + |l.down| + 1
  {
    hide ReadNodes, Pushed, PulledId, Connections.IncomingSpec, Connections.OutgoingSpec;
  }

  /** Steps move each count by at most one. */
  lemma {:induction false} RunCounts(l: Link, steps: seq<Step>)
    requires InOrder(l) && AllUsable(steps)
    ensures Run(l, steps).clientSend <= l.clientSend + |steps|
    ensures Run(l, steps).clientRecv + |Run(l, steps).down| <= l.clientRecv + |l.down| + |steps|
    decreases |steps|
  {
    if steps == [] {
    } else {
      hide InOrder, Do;
      InOrderFlies(l);
      DoKeepsOrder(l, steps[0]);
      DoCounts(l, steps[0]);
      RunCounts(Do(l, steps[0]), steps[1..]);
    }
  }

  function Pushes(steps: seq<Step>): nat {
    if steps == [] then 0 else Pushes(steps[1..]) + if steps[0].Push? then 1 else 0
  }

  lemma DoPushes(l: Link, s: Step)
    requires InFlight(l) && Usable(s)
    ensures Do(l, s).clientSend == l.clientSend + if s.Push? then 1 else 0
    ensures s.Push? ==> Do(l, s).up == l.up + [(l.clientSend + 1, s.body)] && Do(l, s).down == l.down
  {
    hide ReadNodes, Pushed, PulledId, Connections.IncomingSpec, Connections.OutgoingSpec;
  }

  /** The client has numbered exactly the messages it has pushed. */
  lemma {:induction false} RunPushes(l: Link, steps: seq<Step>)
    requires InOrder(l) && AllUsable(steps)
    ensures Run(l, steps).clientSend == l.clientSend + Pushes(steps)
    decreases |steps|
  {
    if steps == [] {
    } else {
      hide InOrder, Do;
      InOrderFlies(l);
      DoKeepsOrder(l, steps[0]);
      DoPushes(l, steps[0]);
      RunPushes(Do(l, steps[0]), steps[1..]);
    }
  }

  /** From a fresh connection nobody ever objects, for any interleaving of fewer than 2^64 steps. */
  lemma NeverTrips(steps: seq<Step>)
    requires AllUsable(steps) && |steps| < TWO64
    ensures InOrder(START)
    ensures var l := Run(START, steps); !l.dropped && !l.ended && !l.outOfSync
  {
    Starts();
    RunOutcome(steps);
    RunCounts(START, steps);
    hide InOrder, Run;
  }
}
