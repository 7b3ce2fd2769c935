/**
 The mendicant's relay between a hub and a local listener: one message at a time in each direction,
 driven by select.
 */
module Relay {
  import opened Bytes

  /** Who a message comes from. */
  datatype Side = HUB | LISTENER

  /** What one round of select brings: the descriptors that are ready, and how the reads and writes turn out. */
  datatype Round<M> = Round(
    readable: set<nat>, writable: set<nat>,
    hubSends: Option<M>, listenerSends: Option<M>, hubTakes: bool, listenerTakes: bool)

  /** One side of the relay: whether it waits to read or to write, the message it holds, and its history. */
  datatype Flow<M> = Flow(reading: bool, slot: Option<M>, received: seq<M>, forwarded: seq<M>)

  /** A side that waits for what is ready reads or writes one message; if that fails, the loop ends. */
  function Pump<M>(f: Flow<M>, readable: bool, writable: bool, incoming: Option<M>, taken: bool): (Flow<M>, bool) {
    if f.reading && readable then
      if incoming.None? then (f, false)
      else (f.(reading := false, slot := incoming, received := f.received + [incoming.value]), true)
    else if !f.reading && writable then
      if !taken || f.slot.None? then (f, false)
      else (f.(reading := true, forwarded := f.forwarded + [f.slot.value]), true)
    else (f, true)
  }

  /** Both sides over a schedule, up to the first failure, and the number of rounds begun. */
  function Pumped<M>(hub: Flow<M>, lis: Flow<M>, rounds: seq<Round<M>>, hostFd: nat, readFd: nat, writeFd: nat)
    : (r: (Flow<M>, Flow<M>, nat))
    ensures r.2 <= |rounds|
    decreases |rounds|
  {
    if rounds == [] then (hub, lis, 0) else
      var round := rounds[0];
      var (h, ok) :=
        Pump(hub, hostFd in round.readable, writeFd in round.writable, round.hubSends, round.listenerTakes);
      if !ok then (h, lis, 1) else
        var (l, ok') :=
          Pump(lis, readFd in round.readable, hostFd in round.writable, round.listenerSends, round.hubTakes);
        if !ok' then (h, l, 1) else
          var (h', l', n) := Pumped(h, l, rounds[1..], hostFd, readFd, writeFd);
          (h', l', n + 1)
  }

  class Proxy<M(0)> {
    const hostFd: nat
    const readFd: nat
    const writeFd: nat
    var readset: set<nat>
    var writeset: set<nat>
    var fromHub: Option<M>
    var fromListener: Option<M>
    ghost var received: map<Side, seq<M>>
    ghost var forwarded: map<Side, seq<M>>

    /** Where a side's messages come in. */
    function Source(s: Side): nat { if s == HUB then hostFd else readFd }

    /** Where they go out. */
    function Sink(s: Side): nat { if s == HUB then writeFd else hostFd }

    function Slot(s: Side): Option<M>
      reads this
    {
      if s == HUB then fromHub else fromListener
    }

    /**
     A side waits to read or to write, never both; what it has read is what it has written, but for the slot's
     message.
     */
    ghost predicate Ok(s: Side)
      reads this
    {
      && s in received && s in forwarded
      && (Source(s) in readset <==> Sink(s) !in writeset)
      && (Source(s) in readset ==> received[s] == forwarded[s])
      && (Sink(s) in writeset ==> Slot(s).Some? && received[s] == forwarded[s] + [Slot(s).value])
    }

    ghost function FlowOf(s: Side): Flow<M>
      requires s in received && s in forwarded
      reads this
    {
      Flow(Source(s) in readset, Slot(s), received[s], forwarded[s])
    }

    ghost predicate Valid()
      reads this
    {
      hostFd != readFd && hostFd != writeFd && Ok(HUB) && Ok(LISTENER)
    }

    constructor (hostFd: nat, readFd: nat, writeFd: nat)
      requires hostFd != readFd && hostFd != writeFd
      ensures Valid() && received == map[HUB := [], LISTENER := []] == forwarded
    {
      this.hostFd, this.readFd, this.writeFd := hostFd, readFd, writeFd;
      readset, writeset := {hostFd, readFd}, {};
      fromHub, fromListener := None, None;
      received, forwarded := map[HUB := [], LISTENER := []], map[HUB := [], LISTENER := []];
    }

    /** PROXY_HANDLE_EVENT. A failed read or write ends the loop. */
    method HandleEvent(s: Side, readmask: set<nat>, writemask: set<nat>, incoming: Option<M>, taken: bool)
      returns (ok: bool)
      requires Valid() && readmask * {Source(s)} <= readset && writemask * {Sink(s)} <= writeset
      modifies this
      ensures Valid() && Other(s) in old(received) && FlowOf(Other(s)) == old(FlowOf(Other(s)))
      ensures (FlowOf(s), ok) == Pump(old(FlowOf(s)), Source(s) in readmask, Sink(s) in writemask, incoming, taken)
      ensures Sink(Other(s)) in writeset <==> Sink(Other(s)) in old(writeset)
    {
      if Source(s) in readmask {
        if incoming.None? { return false; }
        if s == HUB { fromHub := incoming; } else { fromListener := incoming; }
        received := received[s := received[s] + [incoming.value]];
        writeset, readset := writeset + {Sink(s)}, readset - {Source(s)};
      }
      if Sink(s) in writemask {
        if !taken { return false; }
        forwarded := forwarded[s := forwarded[s] + [Slot(s).value]];
        readset, writeset := readset + {Source(s)}, writeset - {Sink(s)};
      }
      ok := true;
    }

    function Other(s: Side): Side { if s == HUB then LISTENER else HUB }

    /** Where both sides are, behind `n` rounds. */
    ghost predicate At(hub: Flow<M>, lis: Flow<M>, rounds: seq<Round<M>>, n: nat)
      requires Valid() && n <= |rounds|
      reads this
    {
      var (h, l, k) := Pumped(FlowOf(HUB), FlowOf(LISTENER), rounds[n..], hostFd, readFd, writeFd);
      Pumped(hub, lis, rounds, hostFd, readFd, writeFd) == (h, l, n + k)
    }

    /**
     Proxy_event_loop over any schedule. Each side's descriptor, slot and history are those of the
     schedule played up to the first failure; what has gone out on a side is what has come in, in order,
     but for at most one message still in the slot.
     */
    method EventLoop(rounds: seq<Round<M>>) returns (n: nat)
      requires Valid()
      modifies this
      ensures Valid()
      ensures (FlowOf(HUB), FlowOf(LISTENER), n)
           == Pumped(old(FlowOf(HUB)), old(FlowOf(LISTENER)), rounds, hostFd, readFd, writeFd)
      ensures Relayed(received[HUB], forwarded[HUB]) && Relayed(received[LISTENER], forwarded[LISTENER])
    {
      ghost var hub, lis := FlowOf(HUB), FlowOf(LISTENER);
      n := 0;
      assert rounds[0..] == rounds;
      while n < |rounds|
        invariant n <= |rounds| && Valid() && At(hub, lis, rounds, n)
      {
        var round := rounds[n];
        assert rounds[n..][0] == round && rounds[n..][1..] == rounds[n + 1..];
        n := n + 1;
        var ok := HandleRound(round);
        if !ok { return; }
      }
      assert rounds[n..] == [];
    }

    /** One round of select. */
    method HandleRound(round: Round<M>) returns (ok: bool)
      requires Valid()
      modifies this
      ensures Valid()
      ensures var (h, l, _) := Pumped(old(FlowOf(HUB)), old(FlowOf(LISTENER)), [round], hostFd, readFd, writeFd);
        FlowOf(HUB) == h && FlowOf(LISTENER) == l
      ensures ok <==> Survives(old(FlowOf(HUB)), old(FlowOf(LISTENER)), round, hostFd, readFd, writeFd)
    {
      var readmask, writemask := readset * round.readable, writeset * round.writable;
      ok := HandleEvent(HUB, readmask, writemask, round.hubSends, round.listenerTakes);
      if !ok { return; }
      ok := HandleEvent(LISTENER, readmask, writemask, round.listenerSends, round.hubTakes);
    }
  }

  /** Neither side fails in a round. */
  predicate Survives<M>(hub: Flow<M>, lis: Flow<M>, round: Round<M>, hostFd: nat, readFd: nat, writeFd: nat) {
    && Pump(hub, hostFd in round.readable, writeFd in round.writable, round.hubSends, round.listenerTakes).1
    && Pump(lis, readFd in round.readable, hostFd in round.writable, round.listenerSends, round.hubTakes).1
  }

  /** All of `came`, in order, or all but the last. */
  predicate Relayed<M(==)>(came: seq<M>, went: seq<M>) { went <= came && |came| <= |went| + 1 }

  // ---------------------------------------------------------------- every message gets through

  /** A round as one side sees it. */
  datatype Turn<M> = Turn(readable: bool, writable: bool, incoming: Option<M>, taken: bool)

  function HubTurn<M>(round: Round<M>, hostFd: nat, writeFd: nat): Turn<M> {
    Turn(hostFd in round.readable, writeFd in round.writable, round.hubSends, round.listenerTakes)
  }

  function ListenerTurn<M>(round: Round<M>, hostFd: nat, readFd: nat): Turn<M> {
    Turn(readFd in round.readable, hostFd in round.writable, round.listenerSends, round.hubTakes)
  }

  /** There is nothing to read where something was announced, or the other end does not take what it is given. */
  predicate Fails<M(==)>(f: Flow<M>, t: Turn<M>) {
    if f.reading then t.readable && t.incoming == None else t.writable && !t.taken
  }

  /**
   The relay goes on exactly if neither side fails; a side that fails loses nothing, and the listener's is then
   not served any more if it was the hub's.
   */
  lemma EndsWhen<M>(hub: Flow<M>, lis: Flow<M>, round: Round<M>, hostFd: nat, readFd: nat, writeFd: nat)
    requires (hub.reading || hub.slot.Some?) && (lis.reading || lis.slot.Some?)
    ensures var hubFails, lisFails := Fails(hub, HubTurn(round, hostFd, writeFd)),
                                      Fails(lis, ListenerTurn(round, hostFd, readFd));
      var (h, l, n) := Pumped(hub, lis, [round], hostFd, readFd, writeFd);
      && n == 1 && (Survives(hub, lis, round, hostFd, readFd, writeFd) <==> !hubFails && !lisFails)
      && (hubFails ==> h == hub && l == lis) && (lisFails ==> l == lis)
  {
    assert [round][1..] == [];
  }

  /** One side over a schedule, and whether it has come through it without a failure. */
  function Turned<M>(f: Flow<M>, turns: seq<Turn<M>>): (Flow<M>, bool)
    decreases |turns|
  {
    if turns == [] then (f, true) else
      var (g, ok) := Pump(f, turns[0].readable, turns[0].writable, turns[0].incoming, turns[0].taken);
      if !ok then (g, false) else Turned(g, turns[1..])
  }

  function HubTurns<M>(rounds: seq<Round<M>>, hostFd: nat, writeFd: nat): seq<Turn<M>> {
    seq(|rounds|, i requires 0 <= i < |rounds| => HubTurn(rounds[i], hostFd, writeFd))
  }

  function ListenerTurns<M>(rounds: seq<Round<M>>, hostFd: nat, readFd: nat): seq<Turn<M>> {
    seq(|rounds|, i requires 0 <= i < |rounds| => ListenerTurn(rounds[i], hostFd, readFd))
  }

  /** As long as neither fails, the two sides do not notice each other. */
  lemma {:induction false} SidesApart<M>(hub: Flow<M>, lis: Flow<M>, rounds: seq<Round<M>>,
      hostFd: nat, readFd: nat, writeFd: nat)
    ensures var (h, ok), (l, ok') :=
      Turned(hub, HubTurns(rounds, hostFd, writeFd)), Turned(lis, ListenerTurns(rounds, hostFd, readFd));
      ok && ok' ==> Pumped(hub, lis, rounds, hostFd, readFd, writeFd) == (h, l, |rounds|)
    decreases |rounds|
  {
    if rounds == [] {
    } else {
      var rest := rounds[1..];
      assert HubTurns(rounds, hostFd, writeFd)[1..] == HubTurns(rest, hostFd, writeFd);
      assert ListenerTurns(rounds, hostFd, readFd)[1..] == ListenerTurns(rest, hostFd, readFd);
      var h := Pump(hub, hostFd in rounds[0].readable, writeFd in rounds[0].writable,
                    rounds[0].hubSends, rounds[0].listenerTakes).0;
      var l := Pump(lis, readFd in rounds[0].readable, hostFd in rounds[0].writable,
                    rounds[0].listenerSends, rounds[0].hubTakes).0;
      SidesApart(h, l, rest, hostFd, readFd, writeFd);
    }
  }

  lemma {:induction false} Waits<M>(f: Flow<M>, turns: seq<Turn<M>>, more: seq<Turn<M>>)
    requires !f.reading && forall i :: 0 <= i < |turns| ==> !turns[i].writable
    ensures Turned(f, turns + more) == Turned(f, more)
    decreases |turns|
  {
    if turns == [] {
      assert turns + more == more;
    } else {
      assert (turns + more)[1..] == turns[1..] + more;
      Waits(f, turns[1..], more);
    }
  }

  /**
   A side that waits to read takes the message that is there, keeps it for as long as the other end cannot be
   written to, passes it on at the first chance, and waits to read again.
   */
  lemma GoesThrough<M>(f: Flow<M>, first: Turn<M>, idle: seq<Turn<M>>, last: Turn<M>)
    requires f.reading && first.readable && first.incoming.Some?
    requires (forall i :: 0 <= i < |idle| ==> !idle[i].writable) && last.writable && last.taken
    ensures var x := first.incoming.value;
      Turned(f, [first] + idle + [last]) == (Flow(true, Some(x), f.received + [x], f.forwarded + [x]), true)
  {
    var x := first.incoming.value;
    var g := Flow(false, Some(x), f.received + [x], f.forwarded);
    assert ([first] + idle + [last])[1..] == idle + [last] && [last][1..] == [];
    assert Pump(f, first.readable, first.writable, first.incoming, first.taken) == (g, true);
    Waits(g, idle, [last]);
  }
}
