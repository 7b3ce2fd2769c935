/**
 A connection's life at the hub: the state chart and its tables, the actions with every way they
 can turn out, the two-stage close, and the pool of closed connections that are reused.
 */
module Connections {
  import opened Bytes
  import opened Routing
  import Heaps
  import Counting
  import Stackish

  // ---------------------------------------------------------------- the chart

  datatype Action =
    | Begin | OpenUp | KeyPrep | Tune | RegisterMember | Established | RecvMsg | ClearRecv | ClearSend | Service
    | MsgReady | MsgidCheck | Aborted | Sent | HateApply | HateChallenge | HatePaid | HateValid | HateInvalid
    | Error | HalfClose | RestClose

  const ERROR: nat := 0
  const START: nat := 1
  const ACCEPTING: nat := 2
  const KEYCHECK: nat := 3
  const TUNING: nat := 4
  const REGISTERING: nat := 5
  const IDLE: nat := 6
  const HATED: nat := 7
  const AWAITING: nat := 8
  const VALIDATING: nat := 9
  const SENDING: nat := 10
  const ABORTING: nat := 11
  const CLOSING: nat := 12
  const DELIVERING: nat := 13
  const FINAL: nat := 14

  datatype Step = Step(target: nat, actions: seq<Action>)

  predicate IsClose(ev: char) { ev == 'r' || ev == 'w' }

  /** The state chart: where an event leads and what it does on the way. */
  function Chart(cs: nat, ev: char): Step {
    if cs == START && ev == 'O' then Step(ACCEPTING, [Begin, OpenUp])
    else if cs == ACCEPTING && ev == 'P' then Step(KEYCHECK, [KeyPrep])
    else if cs == KEYCHECK && ev == '1' then Step(TUNING, [Tune])
    else if cs == TUNING && ev == '1' then Step(REGISTERING, [RegisterMember])
    else if cs == REGISTERING && ev == '1' then Step(IDLE, [Established])
    else if ACCEPTING <= cs <= IDLE && IsClose(ev) then Step(CLOSING, [HalfClose])
    else if cs == IDLE && ev == 'R' then Step(DELIVERING, [RecvMsg])
    else if cs == IDLE && ev == 'Q' then Step(SENDING, [MsgReady])
    else if cs == IDLE && ev == 'H' then Step(HATED, [HateApply])
    else if cs == HATED && ev == 'h' then Step(AWAITING, [HateChallenge])
    else if cs == AWAITING && ev == 'b' then Step(VALIDATING, [HatePaid])
    else if cs == VALIDATING && ev == 'V' then Step(IDLE, [HateValid])
    else if cs == VALIDATING && ev == 'v' then Step(IDLE, [HateInvalid])
    else if cs == SENDING && ev == '0' then Step(ABORTING, [ClearSend])
    else if cs == SENDING && ev == 'e' then Step(IDLE, [Sent, ClearSend])
    else if cs == ABORTING then Step(CLOSING, [Aborted, HalfClose])
    else if cs == CLOSING && IsClose(ev) then Step(FINAL, [RestClose])
    else if cs == DELIVERING && ev == 's' then Step(IDLE, [MsgidCheck, Service, ClearRecv])
    else Step(ERROR, [Error])
  }

  // The generated tables: sorted keys, and for each key (and for no key) the number of a transition.

  function Keys(cs: nat): seq<char> {
    match cs
    case 1 => ['O']
    case 2 => ['P', 'r', 'w']
    case 3 => ['1', 'r', 'w']
    case 4 => ['1', 'r', 'w']
    case 5 => ['1', 'r', 'w']
    case 6 => ['H', 'Q', 'R', 'r', 'w']
    case 7 => ['h']
    case 8 => ['b']
    case 9 => ['V', 'v']
    case 10 => ['0', 'e']
    case 12 => ['r', 'w']
    case 13 => ['s']
    case _ => []
  }

  function Indices(cs: nat): seq<nat> {
    match cs
    case 1 => [1, 0]
    case 2 => [2, 3, 3, 0]
    case 3 => [4, 3, 3, 0]
    case 4 => [5, 3, 3, 0]
    case 5 => [6, 3, 3, 0]
    case 6 => [7, 8, 9, 3, 3, 0]
    case 7 => [10, 0]
    case 8 => [11, 0]
    case 9 => [12, 13, 0]
    case 10 => [14, 15, 0]
    case 11 => [16]
    case 12 => [17, 17, 0]
    case 13 => [18, 0]
    case _ => [0]
  }

  function Transition(t: nat): Step {
    match t
    case 1 => Step(2, [Begin, OpenUp])
    case 2 => Step(3, [KeyPrep])
    case 3 => Step(12, [HalfClose])
    case 4 => Step(4, [Tune])
    case 5 => Step(5, [RegisterMember])
    case 6 => Step(6, [Established])
    case 7 => Step(7, [HateApply])
    case 8 => Step(10, [MsgReady])
    case 9 => Step(13, [RecvMsg])
    case 10 => Step(8, [HateChallenge])
    case 11 => Step(9, [HatePaid])
    case 12 => Step(6, [HateValid])
    case 13 => Step(6, [HateInvalid])
    case 14 => Step(11, [ClearSend])
    case 15 => Step(6, [Sent, ClearSend])
    case 16 => Step(12, [Aborted, HalfClose])
    case 17 => Step(14, [RestClose])
    case 18 => Step(6, [MsgidCheck, Service, ClearRecv])
    case _ => Step(0, [Error])
  }

  lemma TablesMatchChart(cs: nat, ev: char)
    ensures |Indices(cs)| == |Keys(cs)| + 1
    ensures forall i :: 0 <= i < |Keys(cs)| && Keys(cs)[i] == ev ==> Transition(Indices(cs)[i]) == Chart(cs, ev)
    ensures ev !in Keys(cs) ==> Transition(Indices(cs)[|Keys(cs)|]) == Chart(cs, ev)
  {}

  lemma KeysAscend(cs: nat)
    ensures forall i, j :: 0 <= i < j < |Keys(cs)| ==> Keys(cs)[i] < Keys(cs)[j]
  {}

  /** The generated lookup: bisection over the keys. */
  method Lookup(cs: nat, ev: char) returns (s: Step)
    ensures s == Chart(cs, ev)
  {
    TablesMatchChart(cs, ev);
    KeysAscend(cs);
    var keys, indices := Keys(cs), Indices(cs);
    hide Keys, Indices, Chart, Transition;
    var lower, upper := 0, |keys| - 1;
    while true
      invariant 0 <= lower <= |keys| && -1 <= upper < |keys|
      invariant forall i :: 0 <= i < lower ==> keys[i] < ev
      invariant forall i :: upper < i < |keys| ==> keys[i] > ev
      decreases upper - lower
    {
      if upper < lower { break; }
      var mid := lower + (upper - lower) / 2;
      if ev < keys[mid] {
        upper := mid - 1;
      } else if ev > keys[mid] {
        lower := mid + 1;
      } else {
        return Transition(indices[mid]);
      }
    }
    s := Transition(indices[|keys|]);
  }

  // ---------------------------------------------------------------- one connection

  /** The n-th id of a 64-bit counter that starts at 1. */
  function Id(n: nat): nat { (n + 1) % TWO64 }

  predicate Consecutive(ids: seq<nat>) { forall i :: 0 <= i < |ids| ==> ids[i] == Id(i) }

  /** A 64-bit counter's ++. */
  function Succ(n: nat): nat { (n + 1) % TWO64 }

  lemma NextId(n: nat)
    ensures Succ(Id(n)) == Id(n + 1)
  {
    assert n + 1 == TWO64 * ((n + 1) / TWO64) + (n + 1) % TWO64;
  }

  /** How the things an event sets off turn out. */
  datatype Fate = Fate(
    peerMade: bool,          // Peer_create
    confirming: bool,        // the handshake gets as far as asking for the key's confirmation
    tuned: bool,             // Peer_establish_receiver
    loggedIn: bool,          // Member_login
    decoded: Option<nat>,    // Message_decons, with the message's id
    data: Stackish.Tree,     // the message's data, once decoded
    answered: bool)          // a callback other than registering and unregistering

  /** extract_message. */
  function Inner(data: Stackish.Tree): Stackish.Tree {
    if data.Node? && data.child.Node? then data.child.child else Stackish.Nil
  }

  /** What comes of servicing a message: done, refused, or the process stops at an assertion. */
  datatype Servicing = Served | Refused | Dies

  /** A connection as a value. */
  datatype View = View(
    cs: nat, client: bool, peer: bool, joined: bool, recvPending: bool, recvMsg: Option<nat>, sendMsg: bool,
    recvCount: nat, sendCount: nat, begun: bool, serviced: seq<nat>, sent: seq<nat>)

  /** ConnectionState_invariant. */
  function Verdict(cs: nat): int { if cs == ERROR then -1 else if cs >= FINAL then 1 else 0 }

  // What an event does to a connection. `served` is whether the hub carries out the message's request;
  // `depth` bounds the exec that the handshake starts within its own.

  function LocalSpec(v: View, a: Action, fate: Fate): (View, bool) {
    match a
    case Begin => (v.(recvCount := 1, sendCount := 1, begun := true, serviced := [], sent := []), false)
    case KeyPrep => (v.(peer := fate.peerMade), !fate.peerMade)
    case RecvMsg => if v.recvPending then (v.(recvMsg := fate.decoded), fate.decoded.None?) else (v, true)
    case MsgidCheck =>
      if v.recvMsg == Some(v.recvCount) then (v.(recvCount := Succ(v.recvCount)), false) else (v, true)
    case ClearRecv => (v.(recvMsg := None, recvPending := false), false)
    case ClearSend => (v.(sendMsg := false), false)
    case _ => (v, false)
  }

  predicate IsClosing(a: Action) { a.HalfClose? || a.RestClose? || a.Error? }

  /** The actions that touch nothing but the connection itself. */
  predicate IsLocal(a: Action) { !IsClosing(a) && !IsWork(a) }

  /** The actions that need the hub or the peer. */
  predicate IsWork(a: Action) { a.RegisterMember? || a.Service? || a.Tune? }

  function CloseSpec(v: View, a: Action): View {
    if a.RestClose? then v else v.(client := false, joined := false)
  }

  function ActSpec(v: View, a: Action, fate: Fate, served: bool, depth: nat): (View, bool)
    decreases depth, 0
  {
    match a
    case HalfClose => (CloseSpec(v, a), false)
    case Error => (CloseSpec(v, a), false)
    case RestClose => (CloseSpec(v, a), false)
    case RegisterMember => (v.(joined := fate.loggedIn), !fate.loggedIn)
    case Service => (v.(serviced := v.serviced + if v.recvMsg.Some? then [v.recvMsg.value] else []), !served)
    case Tune =>
      if depth == 0 || !fate.confirming then (v, true) else
        var w := ExecSpec(v, '1', fate, served, depth - 1);
        (w, Verdict(w.cs) != 0 || !fate.tuned)
    case _ => LocalSpec(v, a, fate)
  }

  function RunSpec(v: View, acts: seq<Action>, fate: Fate, served: bool, depth: nat): View
    decreases depth, |acts| + 1
  {
    if acts == [] then v else
      var (w, aborted) := ActSpec(v, acts[0], fate, served, depth);
      if aborted then w.(cs := ABORTING) else RunSpec(w, acts[1..], fate, served, depth)
  }

  function ExecSpec(v: View, ev: char, fate: Fate, served: bool, depth: nat): View
    decreases depth, |Chart(v.cs, ev).actions| + 2
  {
    if v.cs == ERROR || v.cs == FINAL then v
    else RunSpec(v.(cs := Chart(v.cs, ev).target), Chart(v.cs, ev).actions, fate, served, depth)
  }

  /** What servicing a message puts into the members' queues: a copy for each of these, or an answer for its sender. */
  datatype Mail = To(members: seq<Member>) | Reply

  const NO_MAIL := To([])

  /** What calloc, or memset on reuse, leaves behind. */
  const BLANK := View(0, false, false, false, false, None, false, 0, 0, false, [], [])

  /** A new client's connection, opened. */
  const OPENED := BLANK.(cs := ACCEPTING, client := true, recvCount := 1, sendCount := 1, begun := true)

  class Connection {
    var cs: nat
    var client: bool
    var peer: bool
    var member: Member?
    var recvPending: bool
    var recvMsg: Option<nat>
    var sendMsg: bool
    var recvCount: nat
    var sendCount: nat
    var begun: bool
    ghost var serviced: seq<nat>
    ghost var sent: seq<nat>

    constructor ()
      ensures Seen() == BLANK
    {
      cs, client, peer, member, recvPending, recvMsg, sendMsg := 0, false, false, null, false, None, false;
      recvCount, sendCount, begun, serviced, sent := 0, 0, false, [], [];
    }

    method Clear()
      modifies this
      ensures Seen() == BLANK
    {
      cs, client, peer, member, recvPending, recvMsg, sendMsg := 0, false, false, null, false, None, false;
      recvCount, sendCount, begun, serviced, sent := 0, 0, false, [], [];
    }

    ghost function Seen(): View
      reads this
    {
      View(cs, client, peer, member != null, recvPending, recvMsg, sendMsg, recvCount, sendCount, begun, serviced, sent)
    }

    /** ConnectionState_done. */
    predicate Done()
      reads this`cs
    {
      cs == ERROR || cs == FINAL
    }

    ghost predicate Counting()
      reads this`begun, this`recvCount, this`sendCount, this`serviced, this`sent
    {
      begun ==>
        && Consecutive(serviced) && recvCount == Id(|serviced|)
        && Consecutive(sent) && sendCount == Id(|sent|)
    }

    /** What holds of a connection between any two events. */
    ghost predicate Good()
      reads this
    {
      && cs <= FINAL && Counting()
      && (client <==> cs != ERROR && cs != CLOSING && cs != FINAL)
      && (member != null ==> client)
      && (ACCEPTING <= cs <= DELIVERING ==> begun)
      && (cs <= TUNING ==> member == null)
      && ((KEYCHECK <= cs <= SENDING || cs == DELIVERING) ==> peer)
      && ((REGISTERING <= cs <= SENDING || cs == DELIVERING) ==> member != null)
      && (cs == DELIVERING ==> recvMsg.Some?)
    }

    /** What holds in between actions: enough for the remaining ones to run, and to leave the connection good. */
    ghost predicate Ready(acts: seq<Action>)
      reads this
    {
      if acts == [] then Good()
      else (Done() ==> acts[0].Error? || acts[0].RestClose?) && match acts[0]
        case Begin => cs == ACCEPTING && client && member == null && acts[1..] == [OpenUp]
        case KeyPrep => cs == KEYCHECK && client && begun && Counting() && member == null && acts[1..] == []
        case RegisterMember =>
          cs == REGISTERING && client && begun && peer && Counting() && member == null && acts[1..] == []
        case RecvMsg => cs == DELIVERING && client && begun && peer && Counting() && member != null && acts[1..] == []
        case MsgidCheck => cs == IDLE && Good() && recvMsg.Some? && acts[1..] == [Service, ClearRecv]
        case Service =>
          && cs == IDLE && client && begun && peer && member != null && recvMsg == Some(Id(|serviced|))
          && Consecutive(serviced) && recvCount == Id(|serviced| + 1)
          && Consecutive(sent) && sendCount == Id(|sent|) && acts[1..] == [ClearRecv]
        case ClearRecv => cs == IDLE && Good() && acts[1..] == []
        case Aborted => Ready(acts[1..]) && acts[1..] == [HalfClose]
        case HalfClose => cs == CLOSING && client && begun && Counting() && acts[1..] == []
        case RestClose => cs == FINAL && !client && member == null && begun && Counting() && acts[1..] == []
        case Error => cs == ERROR && Counting() && (member != null ==> client) && acts[1..] == []
        case Tune => cs == TUNING && Good() && acts[1..] == []
        case Sent => Good() && member != null && acts[1..] == [ClearSend]
        case _ => Good() && acts[1..] == []
    }

    lemma ReadyMeans(acts: seq<Action>)
      requires acts != [] && Ready(acts)
      ensures if acts[0].Error? || acts[0].RestClose? then Done() && acts[1..] == [] else !Done()
      ensures acts[0].Tune? ==> cs == TUNING && acts[1..] == []
      ensures acts[0].Service? ==> member != null && recvMsg.Some?
      ensures acts[0].MsgidCheck? ==> |acts| > 1 && acts[1].Service?
      ensures !acts[0].MsgidCheck? && |acts| > 1 ==> !Serves(acts[1])
    {}

    /** What holds when an action jumps to Aborting. */
    ghost predicate Abortable()
      reads this
    {
      client && begun && Counting()
    }

    /** The jump out of an action list. */
    method Abort()
      requires Abortable()
      modifies `cs
      ensures Good() && Seen() == old(Seen()).(cs := ABORTING)
    {
      cs := ABORTING;
    }

    lemma ReadyWhenGood()
      requires Good()
      ensures Ready([])
    {}

    lemma ReadyDone()
      requires Ready([])
      ensures Good()
    {}

    /** Take the transition: the state changes before any action runs. */
    method Move(ev: char) returns (acts: seq<Action>)
      requires Good() && !Done()
      modifies this`cs
      ensures Seen() == old(Seen()).(cs := Chart(old(cs), ev).target) && acts == Chart(old(cs), ev).actions
      ensures Ready(acts)
    {
      var s := Lookup(cs, ev);
      hide Counting;
      cs := s.target;
      acts := s.actions;
    }

    /** Actions that touch nothing but the connection itself. `aborted` is the jump to Aborting. */
    method Local(acts: seq<Action>, fate: Fate) returns (aborted: bool)
      requires acts != [] && Ready(acts) && !IsClosing(acts[0]) && !IsWork(acts[0])
      modifies `peer, `recvPending, `recvMsg, `sendMsg, `recvCount, `sendCount, `begun, `serviced, `sent
      ensures if aborted then Abortable() && CanFail(acts[0]) else Ready(acts[1..])
      ensures (Seen(), aborted) == LocalSpec(old(Seen()), acts[0], fate)
    {
      aborted := false;
      hide Consecutive, Id, Succ;
      assert [OpenUp][1..] == [] && [ClearSend][1..] == [] && [HalfClose][1..] == [];
      assert [Service, ClearRecv][1..] == [ClearRecv] && [ClearRecv][1..] == [];
      match acts[0] {
        case Begin =>
          recvCount, sendCount := 1, 1;
          begun, serviced, sent := true, [], [];
          FirstIds();
        case KeyPrep =>
          peer := fate.peerMade;
          aborted := !peer;
        case RecvMsg =>
          if recvPending { recvMsg := fate.decoded; }
          aborted := !recvPending || recvMsg.None?;
        case MsgidCheck =>
          if recvMsg.value != recvCount {
            aborted := true;
          } else {
            NextId(|serviced|);
            recvCount := Succ(recvCount);
          }
        case ClearRecv => recvMsg, recvPending := None, false;
        case ClearSend => sendMsg := false;
        case _ =>
      }
    }
  }

  lemma FirstIds()
    ensures Consecutive([]) && Id(0) == 1
  {}

  // ---------------------------------------------------------------- what the routing table says

  /** The route a message is for. */
  function TargetOn(b: Board, data: Stackish.Tree): (p: Option<Path>)
    ensures p.Some? ==> p.value in b && data.Node? && data.name.Some? && p.value == PathOf(data)
  {
    if data.Node? && data.name.Some? && Count(data.child) <= ROUTE_MAX_PATH && PathOf(data) in b
    then Some(PathOf(data)) else None
  }

  /** What comes of a message. */
  function ComesOn(b: Board, fate: Fate): Servicing {
    var target, message := TargetOn(b, fate.data), Inner(fate.data);
    if target.None? then Refused
    else if b[target.value].own.None? then Served
    else if message.Nil? then Refused
    else match b[target.value].own.value
      case Answers => if fate.answered then Served else Refused
      case Unregisters => if TargetOn(b, message).Some? then Served else Refused
      case Registers =>
        if !Roomy(message.child, 1) then Refused
        else if message.name.None? then Dies
        else if PathOf(message) in b && b[PathOf(message)].own.Some? then Refused
        else Served
  }

  /** What servicing it sends out. */
  function MailOn(b: Board, fate: Fate): Mail {
    var target := TargetOn(b, fate.data);
    if target.None? then NO_MAIL
    else if b[target.value].own.None? then To(b[target.value].members)
    else if b[target.value].own == Some(Answers) && Inner(fate.data).Node? && fate.answered then Reply
    else NO_MAIL
  }

  /** What servicing it for the member `m` makes of the table. */
  function ServicedOn(b: Board, fate: Fate, m: Member): Board {
    if ComesOn(b, fate) != Served then b
    else match b[TargetOn(b, fate.data).value].own
      case Some(Registers) => Registered(b, PathOf(Inner(fate.data)), m)
      case Some(Unregisters) => Unregistered(b, PathOf(Inner(fate.data)), m)
      case _ => b
  }

  /** What is left of the table when a connection's member `was` is replaced by `now`. */
  function LeftOn(b: Board, was: Member?, now: Member?): Board {
    if was != null && now != was then Cleared(b, was) else b
  }

  /** What an event of a connection makes of the table. */
  function BoardAfter(b: Board, services: bool, fate: Fate, was: Member?, now: Member?): Board {
    if services && was != null then ServicedOn(b, fate, was) else LeftOn(b, was, now)
  }

  // ---------------------------------------------------------------- the hub

  class Hub {
    const table: Table
    var closed: seq<Connection>
    ghost var all: set<Connection>

    constructor ()
      ensures Valid() && closed == [] && all == {}
    {
      hide Table.Valid;
      table := new Table([114, 111, 111, 116]);   // "root"
      closed, all := [], {};
      new;
    }

    /** Members in use by a connection. */
    ghost predicate Attended(m: Member)
      reads this`all, all`member
    {
      exists c :: c in all && c.member == m
    }

    ghost predicate Members()
      reads this`all, all`member, table, table.paths.Values, table.known
    {
      && table.Valid()
      && (forall c :: c in all && c.member != null ==> c.member in table.known)
      && (forall c, d :: c in all && d in all && c.member != null && c.member == d.member ==> c == d)
      && (forall r, m :: r in table.paths.Values && m in r.members ==> Attended(m))
    }

    /** The free list holds no connection twice, and of the connections other than `c` exactly the done ones. */
    ghost predicate Pooled(c: Connection?)
      reads this, all
    {
      && (forall i, j :: 0 <= i < j < |closed| ==> closed[i] != closed[j])
      && (forall i :: 0 <= i < |closed| ==> closed[i] in all)
      && (forall d :: d in all && d != c ==> d.Good() && (d in closed <==> d.Done()))
    }

    ghost predicate Valid()
      reads this, all, table, table.paths.Values, table.known
    {
      Members() && Pooled(null)
    }

    /** ConnectionState_half_close: the client goes, and with it the member and all its registrations. */
    method HalfClose(c: Connection) returns (rc: int)
      requires Members() && c in all && (c.member != null ==> c.client)
      modifies c`client, c`member, table.paths.Values`members, table.known`routes
      ensures Members() && !c.client && c.member == null && rc == (if old(c.client) then 1 else 0)
      ensures table.Board() == LeftOn(old(table.Board()), old(c.member), null)
      ensures old(c.member) != null ==> forall r :: r in table.paths.Values ==> old(c.member) !in r.members
    {
      hide Table.Valid, Attended, Table.Board, Cleared;
      if c.client {
        c.client := false;
        if c.member != null {
          DropMember(c);
        }
        c.member := null;
        rc := 1;
      } else {
        rc := 0;
      }
    }

    method DropMember(c: Connection)
      requires Members() && c in all && c.member != null
      modifies c`member, table.paths.Values`members, table.known`routes
      ensures Members() && c.member == null && table.Board() == Cleared(old(table.Board()), old(c.member))
      ensures forall r :: r in table.paths.Values ==> old(c.member) !in r.members
    {
      hide IsTrie, IsTraced, Table.Linked, Table.Valid, Table.Board, Cleared, Counting.Others;
      ghost var was: Member := c.member;
      table.UnregisterAll(c.member);
      c.member := null;
      forall r, x | r in table.paths.Values && x in r.members ensures Attended(x) {
        Counting.OthersFrom(old(r.members), was, x);
        assert old(Attended(x));
        var d :| d in all && old(d.member) == x;
        assert d.member == x;
      }
    }

    /**
     ConnectionState_rest_close: onto the free list. Its assertion holds, and the list never starts with `c`
     already.
     */
    method RestClose(c: Connection) returns (rc: int)
      requires Pooled(c) && c in all && !c.client && c !in closed
      modifies this`closed
      ensures Pooled(c) && closed == [c] + old(closed) && rc == 1
    {
      assert c.client == false;
      assert closed == [] || closed[0] != c;
      closed := [c] + closed;
      rc := 1;
    }

    /** Member_login, for a connection that has no member yet. */
    method LogIn(c: Connection)
      requires Members() && c in all && c.member == null
      modifies c`member, table`known, table`used
      ensures Members() && c.member != null && fresh(c.member)
      ensures table.known == old(table.known) + {c.member}
    {
      hide Table.Valid;
      var m := table.Login();
      c.member := m;
      forall r, x | r in table.paths.Values && x in r.members ensures Attended(x) {
        assert old(Attended(x));
        var d :| d in all && old(d.member) == x;
        assert d.member == x;
      }
    }

    /** The route a message is for. */
    ghost function Target(data: Stackish.Tree): (p: Option<Path>)
      reads table`paths
      ensures p.Some? ==> p.value in table.paths
    {
      if data.Node? && data.name.Some? && Count(data.child) <= ROUTE_MAX_PATH && PathOf(data) in table.paths
      then Some(PathOf(data)) else None
    }

    /** What comes of a message, as the routing table stands. */
    ghost function Comes(fate: Fate): Servicing
      reads table`paths, table.paths.Values`internal, table.paths.Values`callback
    {
      var target := Target(fate.data);
      var message := Inner(fate.data);
      if target.None? then Refused
      else if !table.paths[target.value].internal then Served
      else if message.Nil? then Refused
      else match table.paths[target.value].callback
        case Answers => if fate.answered then Served else Refused
        case Unregisters => if Target(message).Some? then Served else Refused
        case Registers =>
          if !Roomy(message.child, 1) then Refused
          else if message.name.None? then Dies
          else if PathOf(message) in table.paths && table.paths[PathOf(message)].internal then Refused
          else Served
    }

    /** The members a message is delivered to: those of its route, unless that is the hub's own. */
    ghost function Addressees(fate: Fate): seq<Member>
      reads table`paths, table.paths.Values
    {
      var target := Target(fate.data);
      if target.Some? && !table.paths[target.value].internal then table.paths[target.value].members else []
    }

    /** Is the message one for a callback that answers, and one it can answer? */
    ghost predicate Replies(fate: Fate)
      reads table`paths, table.paths.Values`internal, table.paths.Values`callback
    {
      var target := Target(fate.data);
      && target.Some? && table.paths[target.value].internal && table.paths[target.value].callback == Answers
      && Inner(fate.data).Node? && fate.answered
    }

    /** What servicing a message sends out. */
    ghost function MailFor(fate: Fate): Mail
      reads table`paths, table.paths.Values
    {
      if Replies(fate) then Reply else To(Addressees(fate))
    }

    /** The table as a value says the same. */
    lemma BoardSays(fate: Fate)
      ensures Comes(fate) == ComesOn(table.Board(), fate) && MailFor(fate) == MailOn(table.Board(), fate)
      ensures forall data :: Target(data) == TargetOn(table.Board(), data)
      ensures forall p :: p in table.paths ==> p in table.Board() && table.Board()[p] == CardOf(table.paths[p])
    {
      hide Count, PathOf, Roomy;
    }

    /**
     Hub_service_message: look the route up, then run the hub's own callback, or name the members the
     message is delivered to. `replies`: the callback has an answer for the sender. `dead`: the process
     has stopped in Route_alloc.
     */
    method ServiceMessage(c: Connection, fate: Fate) returns (ok: bool, dead: bool, to: seq<Member>, replies: bool)
      requires Members() && c in all && c.member != null && Routable(fate)
      modifies table, table.paths.Values, c.member
      ensures Members() && ok == (old(Comes(fate)) == Served) && dead == (old(Comes(fate)) == Dies)
      ensures table.known == old(table.known)
      ensures forall x :: x in table.paths.Values ==> x in old(table.paths.Values) || fresh(x)
      ensures var target, message := old(Target(fate.data)), Inner(fate.data);
        if !ok || !old(table.paths[target.value].internal) || old(table.paths[target.value].callback) == Answers
        then c.member.routes == old(c.member.routes)
        else
          && message.Node? && message.name.Some? && PathOf(message) in table.paths
          && c.member.routes ==
               if old(table.paths[target.value].callback) == Registers
               then PlusRoute(old(c.member.routes), table.paths[PathOf(message)])
               else Counting.Minus(old(c.member.routes), table.paths[PathOf(message)])
      ensures to == old(Addressees(fate)) && replies == old(Replies(fate))
      ensures table.Board() == ServicedOn(old(table.Board()), fate, c.member)
    {
      BoardSays(fate);
      hide Table.Valid, PathOf, NulFree, Roomy, Attended, Counting.Minus, Count, Table.Board, ComesOn, Registered;
      hide Unregistered;
      to, ok, dead, replies := [], false, false, false;
      var m: Member := c.member;
      assert Attended(m) by { AttendedBy(c); }
      var r := Lookup(fate.data);
      if r == null { return; }
      if !r.internal { return true, false, r.members, false; }
      var message := Inner(fate.data);
      if message.Nil? { return; }
      match r.callback {
        case Answers => ok, replies := fate.answered, fate.answered;
        case Registers => ok, dead := Enrol(c, message);
        case Unregisters => ok := Withdraw(c, message);
      }
    }

    /** Route_find from the hub's root. */
    method Lookup(data: Stackish.Tree) returns (r: Route?)
      requires Members() && (data.Node? && data.name.Some? ==> NulFree(PathOf(data)))
      ensures r == if Target(data).Some? then table.paths[Target(data).value] else null
    {
      hide IsTrie, IsTraced, Table.Linked, Table.Spaced, Table.InOrder, Table.Kids, PathOf, NulFree, Count, Attended;
      if data.Nil? { return null; }
      r := table.Find(data);
    }

    /** Hub_route_register_cb. */
    method Enrol(c: Connection, t: Stackish.Tree) returns (ok: bool, dead: bool)
      requires Members() && c in all && c.member != null && t.Node? && (t.name.Some? ==> NulFree(PathOf(t)))
      modifies table, table.paths.Values, c.member
      ensures Members() && table.known == old(table.known)
      ensures forall x :: x in table.paths.Values ==> x in old(table.paths.Values) || fresh(x)
      ensures dead <==> t.name.None? && Roomy(t.child, 1)
      ensures ok <==>
        t.name.Some? && Roomy(t.child, 1) && !(PathOf(t) in old(table.paths) && old(table.paths[PathOf(t)].internal))
      ensures ok ==> PathOf(t) in table.paths
      ensures table.Board() == if ok then Registered(old(table.Board()), PathOf(t), c.member) else old(table.Board())
      ensures c.member.routes ==
        if ok then PlusRoute(old(c.member.routes), table.paths[PathOf(t)]) else old(c.member.routes)
    {
      hide Table.Valid, PathOf, NulFree, Roomy, Attended, PlusMember, PlusRoute, Registered, Table.Board;
      var m: Member := c.member;
      assert Attended(m) by { AttendedBy(c); }
      ghost var b := table.Board();
      BoardAttended();
      var rc;
      rc, dead := table.Register(t, m);
      ok := rc == 1;
      forall p, x | p in table.Board() && x in table.Board()[p].members ensures Attended(x) {
        if ok { RegisteredFrom(b, PathOf(t), m, p, x); }
      }
      AttendedBoard();
    }

    lemma BoardAttended()
      requires Members()
      ensures forall p, x :: p in table.Board() && x in table.Board()[p].members ==> Attended(x)
    {
      hide Table.Valid, Attended;
    }

    lemma AttendedBoard()
      requires forall p, x :: p in table.Board() && x in table.Board()[p].members ==> Attended(x)
      ensures forall r, m :: r in table.paths.Values && m in r.members ==> Attended(m)
    {
      hide Attended;
      forall r, m | r in table.paths.Values && m in r.members ensures Attended(m) {
        var p :| p in table.paths && table.paths[p] == r;
        assert m in table.Board()[p].members;
      }
    }

    lemma RegisteredFrom(b: Board, path: Path, m: Member, p: Path, x: Member)
      requires p in Registered(b, path, m) && x in Registered(b, path, m)[p].members
      ensures x == m || (p in b && x in b[p].members)
    {
      hide PlusMember;
      OneMember(Raised(b, path)[p].members, m, x);
    }

    lemma OneMember(ms: seq<Member>, m: Member, x: Member)
      ensures x in PlusMember(ms, m) ==> x == m || x in ms
    {
      Heaps.InsertHas(ms, m, Heaps.Difference(MemberAt), x);
    }

    /** Hub_route_unregister_cb. */
    method Withdraw(c: Connection, t: Stackish.Tree) returns (ok: bool)
      requires Members() && c in all && c.member != null && t.Node? && (t.name.Some? ==> NulFree(PathOf(t)))
      modifies table.paths.Values, c.member
      ensures Members() && ok == Target(t).Some?
      ensures table.Board() == if ok then Unregistered(old(table.Board()), PathOf(t), c.member) else old(table.Board())
      ensures c.member.routes ==
        if ok then Counting.Minus(old(c.member.routes), table.paths[PathOf(t)]) else old(c.member.routes)
    {
      hide Table.Valid, PathOf, NulFree, Count, Attended, Counting.Minus, Table.Board, Unregistered;
      var m: Member := c.member;
      assert Attended(m) by { AttendedBy(c); }
      var rc := table.Unregister(t, m);
      ok := rc == 1;
      forall r, x | r in table.paths.Values && x in r.members ensures Attended(x) {
        Counting.MinusFrom(old(r.members), m, x);
      }
    }

    lemma KnownMember(c: Connection)
      requires Members() && c in all && c.member != null
      ensures c.member in table.known
    {}

    lemma AttendedBy(c: Connection)
      requires c in all && c.member != null
      ensures Attended(c.member)
    {}

    method DoHalfClose(c: Connection, acts: seq<Action>)
      requires Members() && Pooled(c) && c in all && c !in closed && acts != [] && c.Ready(acts)
      requires acts[0].HalfClose?
      modifies c`client, c`member, table.paths.Values`members, table.known`routes
      ensures Members() && Pooled(c) && c.Ready(acts[1..])
      ensures c.Seen() == old(c.Seen()).(client := false, joined := false)
      ensures table.Board() == LeftOn(old(table.Board()), old(c.member), c.member)
    {
      hide Members, Consecutive, Table.Board, LeftOn;
      var _ := HalfClose(c);
    }

    method DoError(c: Connection, acts: seq<Action>)
      requires Members() && Pooled(c) && c in all && c !in closed && acts != [] && c.Ready(acts)
      requires acts[0].Error?
      modifies c`client, c`member, this`closed, table.paths.Values`members, table.known`routes
      ensures Members() && Pooled(c) && c.Ready(acts[1..]) && closed == [c] + old(closed)
      ensures c.Seen() == old(c.Seen()).(client := false, joined := false)
      ensures table.Board() == LeftOn(old(table.Board()), old(c.member), c.member)
    {
      hide Members, Consecutive, Table.Board, LeftOn;
      var _ := HalfClose(c);
      var _ := RestClose(c);
    }

    method DoRegister(c: Connection, acts: seq<Action>, fate: Fate) returns (aborted: bool)
      requires Members() && Pooled(c) && c in all && c !in closed && acts != [] && c.Ready(acts)
      requires acts[0].RegisterMember?
      modifies c`member, table`known, table`used
      ensures Members() && Pooled(c) && if aborted then c.Abortable() else c.Ready(acts[1..])
      ensures c.Seen() == old(c.Seen()).(joined := fate.loggedIn) && aborted == !fate.loggedIn
      ensures table.Board() == LeftOn(old(table.Board()), old(c.member), c.member)
      ensures c.member == null || c.member == old(c.member) || fresh(c.member)
      ensures forall m :: m in table.known ==> m in old(table.known) || fresh(m)
    {
      hide Members, Consecutive;
      aborted := !fate.loggedIn;
      if fate.loggedIn { LogIn(c); }
    }

    method DoService(c: Connection, acts: seq<Action>, fate: Fate)
      returns (aborted: bool, dead: bool, mail: Mail)
      requires Members() && Pooled(c) && c in all && c !in closed && acts != [] && c.Ready(acts)
      requires acts[0].Service? && Routable(fate)
      modifies c`serviced, table, table.paths.Values, c.member
      ensures dead == (old(Comes(fate)) == Dies)
      ensures !dead ==> Members() && Pooled(c) && if aborted then c.Abortable() else c.Ready(acts[1..])
      ensures !dead ==> c.recvMsg.Some? && c.Seen() == old(c.Seen()).(serviced := old(c.serviced) + [c.recvMsg.value])
      ensures aborted == (old(Comes(fate)) != Served) && mail == old(MailFor(fate))
      ensures c.member != null && table.Board() == ServicedOn(old(table.Board()), fate, c.member)
      ensures table.known == old(table.known)
      ensures forall x :: x in table.paths.Values ==> x in old(table.paths.Values) || fresh(x)
    {
      hide Members, Id, Routable, Comes, Addressees, Replies, Table.Board, ServicedOn;
      c.serviced := c.serviced + [c.recvMsg.value];
      assert [ClearRecv][1..] == [];
      var ok, to, replies;
      ok, dead, to, replies := ServiceMessage(c, fate);
      aborted, mail := !ok, if replies then Reply else To(to);
    }

    /** What the hub has while the actions of a transition of `c` are under way. */
    ghost predicate Busy(c: Connection, acts: seq<Action>)
      reads this, all, table, table.paths.Values, table.known
    {
      Members() && Pooled(c) && c in all && c !in closed && c.Ready(acts)
    }

    /** One action of a transition; `aborted` is the jump to Aborting. */
    method RunOne(c: Connection, acts: seq<Action>, fate: Fate, ghost served: bool, ghost depth: nat)
      returns (aborted: bool, dead: bool, mail: Mail)
      requires acts != [] && Busy(c, acts) && Routable(fate) && (acts[0].Tune? ==> depth > 0)
      requires acts[0].Service? ==> served == (Comes(fate) == Served)
      modifies c, this`closed, table, table.paths.Values, table.known
      ensures dead <==> acts[0].Service? && old(Comes(fate)) == Dies
      ensures !dead ==> Members() && Pooled(c)
      ensures all == old(all) && forall m :: m in table.known ==> m in old(table.known) || fresh(m)
      ensures forall x :: x in table.paths.Values ==> x in old(table.paths.Values) || fresh(x)
      ensures !dead ==> if aborted then c.Abortable() else c.Ready(acts[1..])
      ensures closed == if acts[0].Error? || acts[0].RestClose? then [c] + old(closed) else old(closed)
      ensures !dead ==> (c.Seen(), aborted) == ActSpec(old(c.Seen()), acts[0], fate, served, depth)
      ensures mail == if acts[0].Service? then old(MailFor(fate)) else NO_MAIL
      ensures !dead ==> table.Board() == BoardAfter(old(table.Board()), acts[0].Service?, fate, old(c.member), c.member)
      ensures c.member == null || c.member == old(c.member) || fresh(c.member)
      ensures !Joins(acts[0]) ==> c.member == null || c.member == old(c.member)
      ensures IsLocal(acts[0]) || acts[0].Service? ==> c.member == old(c.member)
      decreases depth, 2
    {
      hide Table.Board, ServicedOn, Cleared;
      hide Members, Pooled, Busy, Routable, Connection.Ready, Connection.Abortable;
      hide Comes, MailFor, ActSpec, LocalSpec, Connection.Seen;
      ActKinds(c.Seen(), acts[0], fate, served, depth);
      dead, mail := false, NO_MAIL;
      if IsClosing(acts[0]) {
        DoClose(c, acts);
        aborted := false;
      } else if IsWork(acts[0]) {
        aborted, dead, mail := DoWork(c, acts, fate, served, depth);
      } else {
        aborted := DoLocal(c, acts, fate);
      }
    }

    /** The closing actions. */
    method DoClose(c: Connection, acts: seq<Action>)
      requires acts != [] && Busy(c, acts) && IsClosing(acts[0])
      modifies c`client, c`member, this`closed, table.paths.Values`members, table.known`routes
      ensures Members() && Pooled(c) && c.Ready(acts[1..])
      ensures c.Seen() == CloseSpec(old(c.Seen()), acts[0])
      ensures closed == if acts[0].HalfClose? then old(closed) else [c] + old(closed)
      ensures c.member == null || c.member == old(c.member)
      ensures table.Board() == LeftOn(old(table.Board()), old(c.member), c.member)
    {
      hide Members, Pooled, Connection.Ready, Table.Board, Cleared;
      match acts[0] {
        case HalfClose => DoHalfClose(c, acts);
        case RestClose => DoRestClose(c, acts);
        case Error => DoError(c, acts);
      }
    }

    /** The actions that need the hub or the peer and may fail. */
    method DoWork(c: Connection, acts: seq<Action>, fate: Fate, ghost served: bool, ghost depth: nat)
      returns (aborted: bool, dead: bool, mail: Mail)
      requires acts != [] && Busy(c, acts) && Routable(fate) && (acts[0].Tune? ==> depth > 0)
      requires IsWork(acts[0])
      requires acts[0].Service? ==> served == (Comes(fate) == Served)
      modifies c, this`closed, table, table.paths.Values, table.known
      ensures dead <==> acts[0].Service? && old(Comes(fate)) == Dies
      ensures closed == old(closed) && (!dead ==> Members() && Pooled(c))
      ensures all == old(all) && forall m :: m in table.known ==> m in old(table.known) || fresh(m)
      ensures forall x :: x in table.paths.Values ==> x in old(table.paths.Values) || fresh(x)
      ensures !dead ==> if aborted then c.Abortable() else c.Ready(acts[1..])
      ensures !dead ==> (c.Seen(), aborted) == ActSpec(old(c.Seen()), acts[0], fate, served, depth)
      ensures mail == if acts[0].Service? then old(MailFor(fate)) else NO_MAIL
      ensures c.member == null || c.member == old(c.member) || fresh(c.member)
      ensures !Joins(acts[0]) ==> c.member == null || c.member == old(c.member)
      ensures acts[0].Service? ==> c.member == old(c.member)
      ensures !dead ==> table.Board() == BoardAfter(old(table.Board()), acts[0].Service?, fate, old(c.member), c.member)
      decreases depth, 1
    {
      hide Table.Board, ServicedOn, Cleared;
      dead, mail := false, NO_MAIL;
      hide Members, Pooled, Routable, Connection.Ready, Connection.Abortable, Comes, MailFor, ExecSpec;
      match acts[0] {
        case RegisterMember => aborted := DoRegister(c, acts, fate);
        case Service =>
          c.ReadyMeans(acts);
          KnownMember(c);
          aborted, dead, mail := DoService(c, acts, fate);
        case Tune => aborted := DoTune(c, acts, fate, served, depth);
      }
    }

    method DoRestClose(c: Connection, acts: seq<Action>)
      requires acts != [] && Busy(c, acts) && acts[0].RestClose?
      modifies this`closed
      ensures Members() && Pooled(c) && c.Ready(acts[1..]) && closed == [c] + old(closed)
    {
      hide Members, Consecutive;
      var _ := RestClose(c);
    }

    method DoLocal(c: Connection, acts: seq<Action>, fate: Fate) returns (aborted: bool)
      requires acts != [] && Busy(c, acts) && !IsClosing(acts[0]) && !IsWork(acts[0])
      modifies c`peer, c`recvPending, c`recvMsg, c`sendMsg, c`recvCount, c`sendCount, c`begun, c`serviced, c`sent
      ensures Members() && Pooled(c) && if aborted then c.Abortable() && CanFail(acts[0]) else c.Ready(acts[1..])
      ensures (c.Seen(), aborted) == LocalSpec(old(c.Seen()), acts[0], fate)
    {
      hide Members, Connection.Ready, Connection.Abortable, LocalSpec;
      aborted := c.Local(acts, fate);
    }

    /** Peer_establish_receiver, which asks for the key's confirmation on the way: an exec within this one. */
    method DoTune(c: Connection, acts: seq<Action>, fate: Fate, ghost served: bool, ghost depth: nat)
      returns (aborted: bool)
      requires acts != [] && Busy(c, acts) && acts[0].Tune? && Routable(fate) && depth > 0
      modifies c, this`closed, table, table.paths.Values, table.known
      ensures Members() && Pooled(c) && closed == old(closed)
      ensures all == old(all) && forall m :: m in table.known ==> m in old(table.known) || fresh(m)
      ensures forall x :: x in table.paths.Values ==> x in old(table.paths.Values) || fresh(x)
      ensures if aborted then c.Abortable() else c.Ready(acts[1..])
      ensures (c.Seen(), aborted) == ActSpec(old(c.Seen()), Tune, fate, served, depth)
      ensures c.member == null || c.member == old(c.member) || fresh(c.member)
      ensures table.Board() == LeftOn(old(table.Board()), old(c.member), c.member)
      decreases depth, 0
    {
      hide Members, Routable, Consecutive, ExecSpec, Comes, Table.Board, ServicedOn, Cleared;
      aborted := true;
      if fate.confirming {
        var rc, _, _ := ExecAt(c, '1', fate, served, depth - 1);
        aborted := rc != 0 || !fate.tuned;
      }
    }

    method Jump(c: Connection)
      requires Members() && Pooled(c) && c in all && c.Abortable()
      modifies c`cs
      ensures Members() && Pooled(c) && c.Good() && c.Seen() == old(c.Seen()).(cs := ABORTING)
    {
      hide Members, Connection.Good;
      c.Abort();
    }

    /** One action and, if it aborts, the jump. */
    method ActOrJump(c: Connection, acts: seq<Action>, fate: Fate, ghost served: bool, ghost depth: nat)
      returns (aborted: bool, dead: bool, mail: Mail)
      requires acts != [] && Busy(c, acts) && Routable(fate) && (c.cs == TUNING ==> depth > 0)
      requires Serves(acts[0]) ==> served == (Comes(fate) == Served)
      modifies c, this`closed, table, table.paths.Values, table.known
      ensures dead <==> acts[0].Service? && old(Comes(fate)) == Dies
      ensures !dead ==> Members() && Pooled(c) && if aborted then c.Good() else c.Ready(acts[1..])
      ensures all == old(all) && forall m :: m in table.known ==> m in old(table.known) || fresh(m)
      ensures forall x :: x in table.paths.Values ==> x in old(table.paths.Values) || fresh(x)
      ensures closed == if acts[0].Error? || acts[0].RestClose? then [c] + old(closed) else old(closed)
      ensures !dead ==>
        var (v, fails) := ActSpec(old(c.Seen()), acts[0], fate, served, depth);
        aborted == fails && c.Seen() == if aborted then v.(cs := ABORTING) else v
      ensures mail == if acts[0].Service? then old(MailFor(fate)) else NO_MAIL
      ensures c.member == null || c.member == old(c.member) || fresh(c.member)
      ensures !Joins(acts[0]) ==> c.member == null || c.member == old(c.member)
      ensures IsLocal(acts[0]) || acts[0].Service? ==> c.member == old(c.member)
      ensures !dead ==> table.Board() == BoardAfter(old(table.Board()), acts[0].Service?, fate, old(c.member), c.member)
      decreases depth, 3
    {
      hide Members, Pooled, Routable, Connection.Ready, Connection.Good, ActSpec, Comes, MailFor;
      hide Connection.Abortable, Table.Board, BoardAfter;
      c.ReadyMeans(acts);
      aborted, dead, mail := RunOne(c, acts, fate, served, depth);
      if !dead && aborted { Jump(c); }
    }

    /** The same, with `rest` for what remains to be done. */
    method RunStep(c: Connection, acts: seq<Action>, fate: Fate, ghost served: bool, ghost depth: nat)
      returns (rest: seq<Action>, dead: bool, mail: Mail)
      requires acts != [] && Busy(c, acts) && Routable(fate) && (c.cs == TUNING ==> depth > 0)
      requires Serves(acts[0]) ==> served == (Comes(fate) == Served)
      modifies c, this`closed, table, table.paths.Values, table.known
      ensures dead <==> acts[0].Service? && old(Comes(fate)) == Dies
      ensures !dead ==> Members() && Pooled(c) && c.Ready(rest) && (rest == [] || rest == acts[1..])
      ensures all == old(all) && forall m :: m in table.known ==> m in old(table.known) || fresh(m)
      ensures forall x :: x in table.paths.Values ==> x in old(table.paths.Values) || fresh(x)
      ensures !dead ==> closed == (if rest == [] && c.Done() then [c] else []) + old(closed)
      ensures !dead && rest != [] ==> c.cs == old(c.cs) && (Serves(rest[0]) ==> acts[0].MsgidCheck?)
      ensures !dead ==>
        RunSpec(c.Seen(), rest, fate, served, depth) == RunSpec(old(c.Seen()), acts, fate, served, depth)
      ensures !dead && !acts[0].Service? ==> (Reaches(c.Seen(), rest) <==> Reaches(old(c.Seen()), acts))
      ensures !dead && acts[0].Service? ==> Reaches(old(c.Seen()), acts) && !Reaches(c.Seen(), rest)
      ensures mail == if acts[0].Service? then old(MailFor(fate)) else NO_MAIL
      ensures c.member == null || c.member == old(c.member) || fresh(c.member)
      ensures !Joins(acts[0]) ==> c.member == null || c.member == old(c.member)
      ensures IsLocal(acts[0]) || acts[0].Service? ==> c.member == old(c.member)
      ensures !dead ==> table.Board() == BoardAfter(old(table.Board()), acts[0].Service?, fate, old(c.member), c.member)
      decreases depth, 4
    {
      hide Members, Pooled, Routable, Connection.Ready, Connection.Good, RunSpec, ActSpec, Comes, MailFor;
      hide Connection.Abortable, Reaches, Table.Board, BoardAfter;
      c.ReadyMeans(acts);
      RunNext(c.Seen(), acts, fate, served, depth);
      ActMeans(c.Seen(), acts[0], fate, served, depth);
      ReachesNext(c.Seen(), acts, fate, served, depth);
      assert [] + closed == closed;
      var aborted;
      aborted, dead, mail := ActOrJump(c, acts, fate, served, depth);
      rest := if aborted then [] else acts[1..];
      if dead { return; }
      if rest == [] { NothingReached(c.Seen()); } else { ReachesFirst(c.Seen(), rest); }
      if aborted {
        c.ReadyWhenGood();
        RunDone(c.Seen(), fate, served, depth);
      }
    }

    /** The actions of a transition in turn, up to the first that aborts. */
    method RunAll(c: Connection, actions: seq<Action>, fate: Fate, ghost served: bool, ghost depth: nat)
      returns (dead: bool, mail: Mail)
      requires Busy(c, actions) && Routable(fate) && actions != [] && (c.cs == TUNING ==> depth > 0) && Tidy(actions)
      requires Serves(actions[0]) ==> served == (Comes(fate) == Served)
      modifies c, this`closed, table, table.paths.Values, table.known
      ensures dead <==> old(Comes(fate)) == Dies && Reaches(old(c.Seen()), actions)
      ensures !dead ==> Members() && Pooled(c) && c.Good()
      ensures all == old(all) && forall m :: m in table.known ==> m in old(table.known) || fresh(m)
      ensures forall x :: x in table.paths.Values ==> x in old(table.paths.Values) || fresh(x)
      ensures !dead ==> closed == (if c.Done() then [c] else []) + old(closed)
      ensures !dead ==> c.Seen() == RunSpec(old(c.Seen()), actions, fate, served, depth)
      ensures mail == if Reaches(old(c.Seen()), actions) then old(MailFor(fate)) else NO_MAIL
      ensures c.member == null || c.member == old(c.member) || fresh(c.member)
      ensures (forall a :: a in actions ==> !Joins(a)) ==> c.member == null || c.member == old(c.member)
      ensures (forall a :: a in actions ==> IsLocal(a)) ==> c.member == old(c.member)
      ensures !dead ==>
        table.Board() == BoardAfter(old(table.Board()), Reaches(old(c.Seen()), actions), fate, old(c.member), c.member)
      decreases depth, 5
    {
      hide Members, Pooled, Routable, Connection.Ready, Connection.Good, Connection.Seen, RunSpec, Comes, Reaches;
      hide MailFor, Table.Board, BoardAfter, Along, Tidy, ComesOn, MailOn;
      ghost var b, was, reached := table.Board(), c.member, Reaches(c.Seen(), actions);
      BoardSays(fate);
      AlongFirst(b, was, reached, fate, actions);
      dead, mail := false, NO_MAIL;
      var acts := actions;
      while acts != []
        invariant Members() && Pooled(c) && c.Ready(acts) && !dead
        invariant all == old(all) && forall m :: m in table.known ==> m in old(table.known) || fresh(m)
        invariant forall x :: x in table.paths.Values ==> x in old(table.paths.Values) || fresh(x)
        invariant acts != [] ==> c.cs == old(c.cs)
        invariant closed == (if acts == [] && c.Done() then [c] else []) + old(closed)
        invariant forall a :: a in acts ==> a in actions
        invariant acts != [] && Serves(acts[0]) ==> table.Board() == b && served == (ComesOn(b, fate) == Served)
        invariant c.member == null || c.member == old(c.member) || fresh(c.member)
        invariant (forall a :: a in actions ==> !Joins(a)) ==> c.member == null || c.member == old(c.member)
        invariant (forall a :: a in actions ==> IsLocal(a)) ==> c.member == old(c.member)
        invariant Along(b, was, reached, fate, acts, Reaches(c.Seen(), acts), table.Board(), c.member, mail)
        invariant RunSpec(c.Seen(), acts, fate, served, depth) == RunSpec(old(c.Seen()), actions, fate, served, depth)
        decreases |acts|
      {
        ReachesFirst(c.Seen(), acts);
        BoardSays(fate);
        ghost var acts0, b0, mid, mail0, reach := acts, table.Board(), c.member, mail, Reaches(c.Seen(), acts);
        AlongMeans(b, was, reached, fate, acts, reach, b0, mid, mail);
        var service := acts[0].Service?;
        var out;
        acts, dead, out := RunStep(c, acts, fate, served, depth);
        if service { mail := out; }
        if dead { return; }
        SameBoard(b0, acts0[0], fate, mid, c.member);
        AlongNext(b, was, reached, fate, acts0, reach, b0, mid, mail0,
                  acts, Reaches(c.Seen(), acts), table.Board(), c.member, mail);
      }
      c.ReadyDone();
      RunDone(c.Seen(), fate, served, depth);
      NothingReached(c.Seen());
      AlongMeans(b, was, reached, fate, acts, Reaches(c.Seen(), acts), table.Board(), c.member, mail);
    }

    /** The transition an event takes, with all its actions. */
    method Fire(c: Connection, ev: char, fate: Fate, ghost served: bool, ghost depth: nat)
      returns (dead: bool, mail: Mail)
      requires Valid() && c in all && Routable(fate) && (c.cs == KEYCHECK ==> depth > 0) && !c.Done()
      requires c.cs == DELIVERING ==> served == (Comes(fate) == Served)
      modifies c, this`closed, table, table.paths.Values, table.known
      ensures dead <==> old(Comes(fate)) == Dies && Serving(old(c.Seen()), ev)
      ensures !dead ==> Valid() && closed == (if c.Done() then [c] else []) + old(closed)
      ensures all == old(all) && forall m :: m in table.known ==> m in old(table.known) || fresh(m)
      ensures forall x :: x in table.paths.Values ==> x in old(table.paths.Values) || fresh(x)
      ensures !dead ==>
        var step := Chart(old(c.cs), ev);
        c.Seen() == RunSpec(old(c.Seen()).(cs := step.target), step.actions, fate, served, depth)
      ensures mail == if Serving(old(c.Seen()), ev) then old(MailFor(fate)) else NO_MAIL
      ensures c.member == null || c.member == old(c.member) || fresh(c.member)
      ensures !Admits(old(c.cs), ev) ==> c.member == null || c.member == old(c.member)
      ensures old(c.cs) == IDLE && ev == 'R' ==> c.member == old(c.member)
      ensures !dead ==>
        table.Board() == BoardAfter(old(table.Board()), Serving(old(c.Seen()), ev), fate, old(c.member), c.member)
      decreases depth, 6
    {
      hide Members, Routable, Connection.Ready, Chart, Connection.Abortable, AnyFails, RunSpec, Comes, MailFor;
      hide Table.Board, BoardAfter, Tidy, Serving, Reaches;
      ChartTidy(c.cs, ev);
      ChartTunes(c.cs, ev);
      ChartReaches(c.Seen(), ev);
      var acts := c.Move(ev);
      dead, mail := RunAll(c, acts, fate, served, depth);
    }

    method ExecAt(c: Connection, ev: char, fate: Fate, ghost served: bool, ghost depth: nat)
      returns (rc: int, dead: bool, mail: Mail)
      requires Valid() && c in all && Routable(fate) && (c.cs == KEYCHECK ==> depth > 0)
      requires c.cs == DELIVERING ==> served == (Comes(fate) == Served)
      modifies c, this`closed, table, table.paths.Values, table.known
      ensures dead <==> old(Comes(fate)) == Dies && Serving(old(c.Seen()), ev)
      ensures !dead ==> Valid()
      ensures all == old(all) && forall m :: m in table.known ==> m in old(table.known) || fresh(m)
      ensures forall x :: x in table.paths.Values ==> x in old(table.paths.Values) || fresh(x)
      ensures old(c.Done()) ==> rc == -1 && c.cs == old(c.cs) && closed == old(closed)
      ensures !dead && !old(c.Done()) ==> rc == Verdict(c.cs) && closed == (if c.Done() then [c] else []) + old(closed)
      ensures !dead && !old(c.Done()) && old(c.cs) != KEYCHECK ==>
        c.cs == Chart(old(c.cs), ev).target || (c.cs == ABORTING && AnyFails(Chart(old(c.cs), ev).actions))
      ensures !dead ==> c.Seen() == ExecSpec(old(c.Seen()), ev, fate, served, depth)
      ensures mail == if Serving(old(c.Seen()), ev) then old(MailFor(fate)) else NO_MAIL
      ensures c.member == null || c.member == old(c.member) || fresh(c.member)
      ensures !Admits(old(c.cs), ev) ==> c.member == null || c.member == old(c.member)
      ensures old(c.cs) == IDLE && ev == 'R' ==> c.member == old(c.member)
      ensures !dead ==>
        table.Board() == BoardAfter(old(table.Board()), Serving(old(c.Seen()), ev), fate, old(c.member), c.member)
      decreases depth, 7
    {
      hide Members, Pooled, Routable, Chart, AnyFails, RunSpec, Comes, MailFor;
      hide Table.Board, BoardAfter, Serving;
      ghost var b, was := table.Board(), c.member;
      SameBoard(b, Begin, fate, was, was);
      DoneServesNot(c.Seen(), ev);
      if c.Done() { return -1, false, NO_MAIL; }
      ChartTunes(c.cs, ev);
      RunLeadsTo(c.Seen().(cs := Chart(c.cs, ev).target), Chart(c.cs, ev).actions, fate, served, depth);
      dead, mail := Fire(c, ev, fate, served, depth);
      rc := Verdict(c.cs);
    }

    /**
     ConnectionState_exec. The process stops in it exactly when a message with the right id asks to
     register a route without a name. Otherwise, whatever the event and however its actions turn out,
     the client handle is gone exactly in Closing, final and error, the connection is on the free list
     exactly when it is done, and it gets there once. `mail` is what a serviced message sends out.
     */
    method Exec(c: Connection, ev: char, fate: Fate) returns (rc: int, dead: bool, mail: Mail)
      requires Valid() && c in all && Routable(fate)
      modifies c, this`closed, table, table.paths.Values, table.known
      ensures dead <==>
        old(Comes(fate)) == Dies && old(c.cs) == DELIVERING && ev == 's' && old(c.recvMsg) == Some(old(c.recvCount))
      ensures !dead ==> Valid()
      ensures all == old(all) && forall m :: m in table.known ==> m in old(table.known) || fresh(m)
      ensures forall x :: x in table.paths.Values ==> x in old(table.paths.Values) || fresh(x)
      ensures old(c.Done()) ==> rc == -1 && c.cs == old(c.cs) && closed == old(closed)
      ensures !dead && !old(c.Done()) ==> rc == Verdict(c.cs) && closed == (if c.Done() then [c] else []) + old(closed)
      ensures !dead && !old(c.Done()) && old(c.cs) != KEYCHECK ==>
        c.cs == Chart(old(c.cs), ev).target || (c.cs == ABORTING && AnyFails(Chart(old(c.cs), ev).actions))
      ensures !dead ==> c.Seen() == ExecSpec(old(c.Seen()), ev, fate, old(Comes(fate)) == Served, 1)
      ensures ev != 's' ==> Comes(fate) == old(Comes(fate))
      ensures !dead ==> (c.client <==> c.cs != ERROR && c.cs != CLOSING && c.cs != FINAL)
      ensures !dead ==> (c in closed <==> c.Done())
      ensures !dead && c.begun ==> Consecutive(c.serviced) && c.recvCount == Id(|c.serviced|)
      ensures !dead && c.begun ==> Consecutive(c.sent) && c.sendCount == Id(|c.sent|)
      ensures mail == if old(c.cs) == DELIVERING && ev == 's' && old(c.recvMsg) == Some(old(c.recvCount))
                      then old(MailFor(fate)) else NO_MAIL
      ensures old(c.cs) == IDLE && ev == 'R' ==> MailFor(fate) == old(MailFor(fate))
      ensures c.member == null || c.member == old(c.member) || fresh(c.member)
      ensures !Admits(old(c.cs), ev) ==> c.member == null || c.member == old(c.member)
      ensures old(c.cs) == IDLE && ev == 'R' ==> c.member == old(c.member)
      ensures !dead ==> table.Board() == BoardAfter(old(table.Board()),
        old(c.cs) == DELIVERING && ev == 's' && old(c.recvMsg) == Some(old(c.recvCount)), fate, old(c.member), c.member)
    {
      hide Members, Routable, Chart, AnyFails, Consecutive, Id, ExecSpec, Comes, MailFor;
      hide Table.Board, BoardAfter, ComesOn, MailOn;
      ghost var b, was := table.Board(), c.member;
      BoardSays(fate);
      rc, dead, mail := ExecAt(c, ev, fate, Comes(fate) == Served, 1);
      BoardSays(fate);
      StillComes(b, fate, was, c.member);
    }

    /** Hub_new_or_reuse_conn: only a done connection is handed out again. */
    method NewOrReuse() returns (c: Connection)
      requires Valid()
      modifies this`closed, this`all, all
      ensures Members() && Pooled(c) && c in all && c !in closed
      ensures c.Seen() == BLANK
      ensures fresh(c) || (c in old(all) && old(c.Done()) && old(c.member) == null)
      ensures if old(closed) != [] then c == old(closed)[0] && closed == old(closed)[1..] && all == old(all)
              else fresh(c) && closed == [] && all == old(all) + {c}
      ensures forall d :: d in old(all) && d != c ==> unchanged(d)
    {
      hide Members, Pooled;
      if closed != [] {
        c := Reuse();
      } else {
        c := Create();
      }
    }

    method Reuse() returns (c: Connection)
      requires Valid() && closed != []
      modifies this`closed, all
      ensures Members() && Pooled(c) && c in all && c !in closed && old(c.Done()) && old(c.member) == null
      ensures c.Seen() == BLANK
      ensures c == old(closed)[0] && closed == old(closed)[1..]
      ensures forall d :: d in all && d != c ==> unchanged(d)
    {
      hide Members, Connection.Good;
      c := closed[0];
      assert c in all && c in closed;
      GoodWhenDone(c);
      closed := closed[1..];
      c.Clear();
    }

    lemma GoodWhenDone(c: Connection)
      requires Pooled(null) && c in all && c in closed
      ensures c.Done() && c.member == null
    {}

    method Create() returns (c: Connection)
      requires Valid() && closed == []
      modifies this`all
      ensures Members() && Pooled(c) && fresh(c) && all == old(all) + {c}
      ensures c.Seen() == BLANK
    {
      hide Table.Valid;
      c := new Connection();
      all := all + {c};
      forall r, x | r in table.paths.Values && x in r.members ensures Attended(x) {
        assert old(Attended(x));
        var d :| d in old(all) && old(d.member) == x;
        assert d in all && d.member == x;
      }
    }

    /** Hub_queue_conn: a connection for a new client, opened. */
    method QueueConn(fate: Fate) returns (c: Connection)
      requires Valid() && Routable(fate)
      modifies this, all, table, table.paths.Values, table.known
      ensures Valid() && c in all && c.Seen() == OPENED && c.member == null
      ensures forall d :: d in old(all) && d != c ==> unchanged(d)
      ensures fresh(c) || (c in old(all) && IsDone(old(c.Seen())) && old(c.member) == null)
      ensures if old(closed) != [] then c == old(closed)[0] else fresh(c)
      ensures all == old(all) + {c} && table.Board() == old(table.Board())
      ensures forall m :: m in table.known ==> m in old(table.known) || fresh(m)
      ensures forall x :: x in table.paths.Values ==> x in old(table.paths.Values) || fresh(x)
    {
      hide Members, Routable, Pooled, Chart, AnyFails, Consecutive, Comes, ExecSpec, MailFor, Connection.Good;
      hide Table.Board, ServicedOn, Cleared;
      c := NewOrReuse();
      Start(c);
      OpensUp(c.Seen(), fate, Comes(fate) == Served);
      var _, _, _ := Exec(c, 'O', fate);
    }

    /** A cleared connection with a client, in its start state. */
    method Start(c: Connection)
      requires Members() && Pooled(c) && c in all && c !in closed && c.member == null && !c.begun
      modifies c`client, c`cs
      ensures Valid() && c.Seen() == old(c.Seen()).(cs := START, client := true)
    {
      hide Members, Consecutive;
      c.client := true;
      c.cs := START;
    }

    /** ConnectionState_exec as the tasks need it. */
    method Event(c: Connection, ev: char, fate: Fate) returns (rc: int, dead: bool, mail: Mail)
      requires Valid() && c in all && Routable(fate) && !c.Done()
      modifies c, this`closed, table, table.paths.Values, table.known
      ensures dead <==>
        old(Comes(fate)) == Dies && old(c.cs) == DELIVERING && ev == 's' && old(c.recvMsg) == Some(old(c.recvCount))
      ensures !dead ==> Valid() && rc == Verdict(c.cs)
      ensures !dead ==> c.Seen() == ExecSpec(old(c.Seen()), ev, fate, old(Comes(fate)) == Served, 1)
      ensures ev != 's' ==> Comes(fate) == old(Comes(fate))
      ensures all == old(all) && forall m :: m in table.known ==> m in old(table.known) || fresh(m)
      ensures forall x :: x in table.paths.Values ==> x in old(table.paths.Values) || fresh(x)
      ensures mail == if old(c.cs) == DELIVERING && ev == 's' && old(c.recvMsg) == Some(old(c.recvCount))
                      then old(MailFor(fate)) else NO_MAIL
      ensures ev == 'R' && old(c.cs) == IDLE ==> MailFor(fate) == old(MailFor(fate))
      ensures c.member == null || c.member == old(c.member) || fresh(c.member)
      ensures !Admits(old(c.cs), ev) ==> c.member == null || c.member == old(c.member)
      ensures old(c.cs) == IDLE && ev == 'R' ==> c.member == old(c.member)
      ensures !dead ==>
        table.Board() == BoardAfter(old(table.Board()), Serving(old(c.Seen()), ev), fate, old(c.member), c.member)
    {
      hide Table.Board, BoardAfter;
      hide Members, Pooled, Routable, Comes, Chart, AnyFails, Consecutive, Id, ExecSpec, Connection.Good, MailFor;
      rc, dead, mail := Exec(c, ev, fate);
    }

    /** ConnectionState_read_msg: a header and a body have arrived, or the peer is gone. `dead`: there is no member. */
    method ReadMsg(c: Connection, arrived: bool) returns (rc: int, dead: bool)
      requires Valid() && c in all
      modifies c`recvPending
      ensures Valid() && dead == (!c.Done() && c.client && c.member == null)
      ensures rc == (if c.Done() || !c.client || dead || !arrived then 0 else 1)
      ensures c.Seen() ==
        if c.Done() || !c.client || dead then old(c.Seen()) else old(c.Seen()).(recvPending := arrived)
    {
      hide Members;
      if c.Done() || !c.client { return 0, false; }
      if c.member == null { return 0, true; }
      c.recvPending := arrived;
      rc, dead := if arrived then 1 else 0, false;
    }

    /** ConnectionState_dequeue_msg: Member_first_msg gives a message, or nothing once the queue is dead. */
    method DequeueMsg(c: Connection, queued: bool) returns (rc: int, dead: bool)
      requires Valid() && c in all
      modifies c`sendMsg
      ensures Valid() && dead == (!c.Done() && c.member == null)
      ensures rc == (if c.Done() || dead || !queued then 0 else 1)
      ensures c.Seen() == if c.Done() || dead then old(c.Seen()) else old(c.Seen()).(sendMsg := queued)
    {
      hide Members;
      if c.Done() { return 0, false; }
      if c.member == null { return 0, true; }
      c.sendMsg := queued;
      rc, dead := if queued then 1 else 0, false;
    }

    /** ConnectionState_send_msg: the next header id goes out. `dead`: there is no member whose peer to send to. */
    method SendMsg(c: Connection, delivered: bool) returns (rc: int, dead: bool)
      requires Valid() && c in all
      modifies c`sendCount, c`sent
      ensures Valid() && dead == (!c.Done() && c.member == null)
      ensures rc == (if c.Done() || dead || !delivered then 0 else 1)
      ensures c.Seen() == if c.Done() || dead then old(c.Seen()) else Sending(old(c.Seen()))
    {
      hide Members, Id, Succ;
      if c.Done() { return 0, false; }
      if c.member == null { return 0, true; }
      NextId(|c.sent|);
      c.sent := c.sent + [c.sendCount];
      c.sendCount := Succ(c.sendCount);
      rc, dead := if delivered then 1 else 0, false;
    }

    /**
     One round of ConnectionState_outgoing. It runs into a missing member exactly when there is none
     to begin with, or when a message comes up while the connection is aborting.
     */
    method Outgoing(c: Connection, queued: bool, delivered: bool, fate: Fate) returns (turn: Turn)
      requires Valid() && c in all && Routable(fate)
      modifies c, this`closed, table, table.paths.Values, table.known
      ensures Valid() && all == old(all)
      ensures forall m :: m in table.known ==> m in old(table.known) || fresh(m)
      ensures forall x :: x in table.paths.Values ==> x in old(table.paths.Values) || fresh(x)
      ensures (c.Seen(), turn) == OutgoingSpec(old(c.Seen()), queued, delivered, fate)
      ensures turn == Dead <==> !old(c.Done()) && (old(c.member) == null || (queued && old(c.cs) == ABORTING))
      ensures c.member == null || c.member == old(c.member)
      ensures table.Board() == LeftOn(old(table.Board()), old(c.member), c.member)
    {
      hide Table.Board, ServicedOn, Cleared;
      hide Members, Pooled, Routable, Comes, Chart, AnyFails, Consecutive, Id, ExecSpec, Connection.Good, Sound;
      var rc, dead := DequeueMsg(c, queued);
      if dead { return Dead; }
      if rc == 0 { return Ends; }
      GoodMeans(c);
      QueuedMember(c.Seen(), fate);
      ServedMatters(c.Seen(), 'Q', fate, Comes(fate) == Served, false);
      var mail;
      rc, dead, mail := Event(c, 'Q', fate);
      if rc != 0 { return Again; }
      rc, dead := SendMsg(c, delivered);
      if dead { return Dead; }
      var ev := if rc == 1 then 'e' else '0';
      ServedMatters(c.Seen(), ev, fate, Comes(fate) == Served, false);
      var _, _, _ := Event(c, ev, fate);
      turn := if rc == 1 then Again else Ends;
    }

    /** One round of ConnectionState_incoming. */
    method Incoming(c: Connection, arrived: bool, fate: Fate) returns (turn: Turn, mail: Mail)
      requires Valid() && c in all && Routable(fate)
      modifies c, this`closed, table, table.paths.Values, table.known
      ensures all == old(all) && (turn != Dead ==> Valid())
      ensures forall m :: m in table.known ==> m in old(table.known) || fresh(m)
      ensures forall x :: x in table.paths.Values ==> x in old(table.paths.Values) || fresh(x)
      ensures turn == Dead <==>
        || (!old(c.Done()) && old(c.client) && old(c.member) == null)
        || (old(c.cs) == IDLE && arrived && fate.decoded == Some(old(c.recvCount)) && old(Comes(fate)) == Dies)
      ensures turn != Dead ==>
        (c.Seen(), turn) == IncomingSpec(old(c.Seen()), arrived, fate, old(Comes(fate)) == Served)
      ensures mail == if old(c.cs) == IDLE && arrived && fate.decoded == Some(old(c.recvCount))
                      then old(MailFor(fate)) else NO_MAIL
      ensures c.member == null || c.member == old(c.member)
      ensures turn != Dead ==> table.Board() == BoardAfter(old(table.Board()),
        old(c.cs) == IDLE && arrived && fate.decoded == Some(old(c.recvCount)), fate, old(c.member), c.member)
    {
      hide Table.Board, ServicedOn, Cleared;
      hide Members, Pooled, Routable, Comes, Consecutive, Id, Connection.Good, ReceiveSpec, MailFor;
      var rc, dead := ReadMsg(c, arrived);
      IdleHasMember(c);
      if dead { return Dead, NO_MAIL; }
      if rc == 0 { return Ends, NO_MAIL; }
      dead, mail := Receive(c, fate);
      turn := if dead then Dead else Again;
    }

    /** A message that has been read is decoded and serviced. */
    method Receive(c: Connection, fate: Fate) returns (dead: bool, mail: Mail)
      requires Valid() && c in all && Routable(fate) && !c.Done() && c.recvPending
      modifies c, this`closed, table, table.paths.Values, table.known
      ensures all == old(all) && (!dead ==> Valid())
      ensures forall m :: m in table.known ==> m in old(table.known) || fresh(m)
      ensures forall x :: x in table.paths.Values ==> x in old(table.paths.Values) || fresh(x)
      ensures dead <==> old(c.cs) == IDLE && fate.decoded == Some(old(c.recvCount)) && old(Comes(fate)) == Dies
      ensures !dead ==> c.Seen() == ReceiveSpec(old(c.Seen()), fate, old(Comes(fate)) == Served)
      ensures mail == if old(c.cs) == IDLE && fate.decoded == Some(old(c.recvCount))
                      then old(MailFor(fate)) else NO_MAIL
      ensures c.member == null || c.member == old(c.member)
      ensures !dead ==> table.Board() == BoardAfter(old(table.Board()),
        old(c.cs) == IDLE && fate.decoded == Some(old(c.recvCount)), fate, old(c.member), c.member)
    {
      hide Table.Board, ServicedOn, Cleared;
      hide Members, Pooled, Routable, Comes, Chart, AnyFails, Consecutive, Id;
      hide ExecSpec, Connection.Good, Sound, MailFor;
      GoodMeans(c);
      Receives(c.Seen(), fate, Comes(fate) == Served);
      var rc;
      rc, dead, mail := Event(c, 'R', fate);
      if rc == 0 && c.recvMsg.Some? {
        rc, dead, mail := Event(c, 's', fate);
      }
    }

    lemma IdleHasMember(c: Connection)
      requires Pooled(null) && c in all
      ensures c.cs == IDLE ==> c.client && c.member != null
    {}

    lemma NoMemberYet(c: Connection)
      requires Pooled(null) && c in all
      ensures c.cs == KEYCHECK || c.cs == TUNING ==> c.member == null
    {}

    lemma GoodMeans(c: Connection)
      requires Pooled(null) && c in all
      ensures Sound(c.Seen())
    {}

    /** All connections as values. */
    ghost function Views(): map<Connection, View>
      reads this`all, all
    {
      map c | c in all :: c.Seen()
    }

    /** All that a step of the hub can change. */
    ghost function Now(conns: seq<Connection>, stage: map<Connection, nat>): Instant
      reads this`all, all, this`closed, table`paths, table.paths.Values
    {
      Instant(Scene(Views(), conns, stage), map d | d in all :: d.member, table.Board(), set d | d in closed)
    }

    /**
     Any run of any number of connections, with every choice of events and outcomes, keeps the hub
     valid until the process stops. `instants` are the connections, their members and the routing table
     before every step and at the end: each is the one that its step makes of the one before, and the
     process stops exactly at the first step that halts. In particular no read finds its member missing.
     Until its three opening events are through, a connection has no others.
     */
    method Run(steps: seq<HubStep>) returns (n: nat, dead: bool, ghost instants: seq<Instant>)
      requires Valid() && forall i :: 0 <= i < |steps| ==> Routable(steps[i].fate)
      modifies this, all, table, table.paths.Values, table.known
      ensures n <= |steps| && (dead <==> n < |steps|) && (!dead ==> Valid())
      ensures |instants| == n + 1 && instants[0] == old(Now([], map[]))
      ensures !dead ==> instants[n].members == (map d | d in all :: d.member) && instants[n].board == table.Board()
      ensures forall i :: 0 <= i <= n ==> Matched(instants[i])
      ensures forall i :: 0 <= i < n ==> Moves(instants[i], steps[i], instants[i + 1])
      ensures forall i :: 0 <= i <= n && i < |steps| ==> (Stopped(instants[i], steps[i]) <==> dead && i == n)
    {
      hide Members, Pooled, Routable, Comes, Follows, Halts, Opened, Views, Moves, Stopped, Now, Matched, Table.Board;
      var conns: seq<Connection> := [];
      var stage: map<Connection, nat> := map[];
      NowMeans(conns, stage);
      OpenedFirst(Now(conns, stage).scene);
      NowMatches(conns, stage);
      instants := [Now(conns, stage)];
      n, dead := 0, false;
      while n < |steps|
        invariant n <= |steps| && Valid() && !dead && |instants| == n + 1
        invariant instants[0] == old(Now([], map[]))
        invariant instants[n] == Now(conns, stage) && Opened(Scene(Views(), conns, stage))
        invariant forall i :: 0 <= i <= n ==> Matched(instants[i])
        invariant forall i :: 0 <= i < n ==> Moves(instants[i], steps[i], instants[i + 1])
        invariant forall i :: 0 <= i < n ==> !Stopped(instants[i], steps[i])
        invariant forall d :: d in all ==> d in old(all) || fresh(d)
        invariant forall m :: m in table.known ==> m in old(table.known) || fresh(m)
        invariant forall x :: x in table.paths.Values ==> x in old(table.paths.Values) || fresh(x)
      {
        assert Routable(steps[n].fate);
        var mail;
        conns, stage, dead, mail := Go(steps[n], conns, stage, instants[n]);
        if dead { return; }
        NowMeans(conns, stage);
        NowMatches(conns, stage);
        instants := instants + [Now(conns, stage)];
        n := n + 1;
      }
      NowMeans(conns, stage);
    }

    lemma NowMeans(conns: seq<Connection>, stage: map<Connection, nat>)
      ensures Now(conns, stage).scene == Scene(Views(), conns, stage)
      ensures Now(conns, stage).members == (map d | d in all :: d.member) && Now(conns, stage).board == table.Board()
    {}

    lemma NowMatches(conns: seq<Connection>, stage: map<Connection, nat>)
      requires Valid() && Opened(Scene(Views(), conns, stage))
      ensures Matched(Now(conns, stage))
    {
      BoardAttended();
      NowMeans(conns, stage);
      NowJoined(conns, stage);
      NowDistinct(conns, stage);
      NowFree(conns, stage);
      hide Opened, Sound;
      hide Members, Pooled, Table.Board, Attended, Now, Views;
      var s := Now(conns, stage);
      forall p, m | p in s.board && m in s.board[p].members ensures m in s.members.Values { AttendedValue(m); }
    }

    lemma NowDistinct(conns: seq<Connection>, stage: map<Connection, nat>)
      requires Members()
      ensures var s := Now(conns, stage);
        forall d, e :: d in s.members && e in s.members && s.members[d] != null && d != e ==>
          s.members[d] != s.members[e]
    {
      hide Table.Board, Table.Valid, Attended;
    }

    lemma NowFree(conns: seq<Connection>, stage: map<Connection, nat>)
      requires Pooled(null)
      ensures var s := Now(conns, stage);
        && s.free == (set d | d in s.scene.views && IsDone(s.scene.views[d]))
        && forall d :: d in s.scene.views ==> Sound(s.scene.views[d])
    {
      hide Table.Board;
    }

    lemma NowJoined(conns: seq<Connection>, stage: map<Connection, nat>)
      ensures var s := Now(conns, stage);
        && s.members.Keys == s.scene.views.Keys
        && forall d :: d in s.members ==> (s.scene.views[d].joined <==> s.members[d] != null)
    {
      hide Table.Board;
    }

    lemma AttendedValue(m: Member)
      requires Attended(m)
      ensures m in (map d | d in all :: d.member).Values
    {
      var d :| d in all && d.member == m;
      var members: map<Connection, Member?> := map d | d in all :: d.member;
      assert d in members && members[d] == m;
    }

    /** One step of a run. */
    method Go(step: HubStep, conns: seq<Connection>, stage: map<Connection, nat>, ghost s: Instant)
      returns (conns': seq<Connection>, stage': map<Connection, nat>, dead: bool, mail: Mail)
      requires Valid() && Routable(step.fate) && Opened(Scene(Views(), conns, stage)) && s == Now(conns, stage)
      modifies this, all, table, table.paths.Values, table.known
      ensures dead <==> Stopped(s, step)
      ensures !dead ==> Valid() && Opened(Scene(Views(), conns', stage')) && Moves(s, step, Now(conns', stage'))
      ensures mail == MailAt(s, step)
      ensures old(all) <= all && forall d :: d in all && d !in old(all) ==> d.member == null
      ensures forall d :: d in old(all) && d != Actor(s.scene, step) ==> d.member == old(d.member)
      ensures var c := Actor(s.scene, step);
        c != null ==>
          && c in old(all)
          && (c.member == null || c.member == old(c.member) ||
              (step.Opens? && fresh(c.member) && old(c.member) == null))
      ensures forall d :: d in all ==> d in old(all) || fresh(d)
      ensures forall m :: m in table.known ==> m in old(table.known) || fresh(m)
      ensures forall x :: x in table.paths.Values ==> x in old(table.paths.Values) || fresh(x)
    {
      hide Members, Pooled, Routable, Comes, Follows, Halts, Opened, Views, Table.Board, MailFor, ComesOn, MailOn;
      hide BoardAfter, Posts, Actor;
      BoardSays(step.fate);
      conns', stage', dead, mail := RunOn(step, conns, stage);
    }

    /** The same, in terms of the hub's own fields. */
    method RunOn(step: HubStep, conns: seq<Connection>, stage: map<Connection, nat>)
      returns (conns': seq<Connection>, stage': map<Connection, nat>, dead: bool, mail: Mail)
      requires Valid() && Routable(step.fate) && Opened(Scene(Views(), conns, stage))
      modifies this, all, table, table.paths.Values, table.known
      ensures dead <==> Halts(old(Scene(Views(), conns, stage)), step, old(Comes(step.fate)))
      ensures !dead ==>
        && Valid() && Opened(Scene(Views(), conns', stage'))
        && Follows(old(Scene(Views(), conns, stage)), step, old(Comes(step.fate)), Scene(Views(), conns', stage'))
      ensures forall d :: d in all ==> d in old(all) || fresh(d)
      ensures forall m :: m in table.known ==> m in old(table.known) || fresh(m)
      ensures forall x :: x in table.paths.Values ==> x in old(table.paths.Values) || fresh(x)
      ensures mail == if Posts(old(Scene(Views(), conns, stage)), step) then old(MailFor(step.fate)) else NO_MAIL
      ensures old(all) <= all && forall d :: d in all && d !in old(all) ==> d.member == null
      ensures forall d :: d in old(all) && d != Actor(old(Scene(Views(), conns, stage)), step) ==>
        d.member == old(d.member)
      ensures var c := Actor(old(Scene(Views(), conns, stage)), step);
        c != null ==>
          && c in old(all)
          && (c.member == null || c.member == old(c.member) ||
              (step.Opens? && fresh(c.member) && old(c.member) == null))
      ensures !dead ==>
        var a := old(Scene(Views(), conns, stage));
        var c, b := Actor(a, step), old(table.Board());
        table.Board() == if c == null then b else BoardAfter(b, Posts(a, step), step.fate, old(c.member), c.member)
    {
      hide Table.Board, ServicedOn, Cleared;
      hide Members, Pooled, Routable, Comes, ExecSpec, ActedSpec, Stage, Stops, Connection.Seen, MailFor;
      hide Follows, Halts, Opened, Services;
      conns', stage', dead, mail := conns, stage, false, NO_MAIL;
      ghost var a, comes := Scene(Views(), conns, stage), Comes(step.fate);
      if !step.Accept? && step.k < |conns| { OpenedMeans(a, step); }
      if step.Accept? {
        var c := QueueConn(step.fate);
        conns', stage' := conns + [c], stage[c := 0];
        assert Views() == a.views[c := OPENED];
        AcceptFollows(a, step, comes, c);
      } else if step.k >= |conns| {
        IdleFollows(a, step, comes);
      } else {
        var c := conns[step.k];
        if step.Opens? && stage[c] < 3 {
          ghost var v := OpenNext(c, stage[c], step.fate);
          stage' := stage[c := stage[c] + 1];
          assert Views() == a.views[c := v];
          OpensFollows(a, step, comes, v);
        } else if step.Opens? || stage[c] != 3 {
          IdleFollows(a, step, comes);
        } else {
          ghost var v;
          v, dead, mail := Act(c, step);
          HaltsWhenStops(a, step, comes);
          if !dead {
            assert Views() == a.views[c := v];
            ActFollows(a, step, comes, v);
          }
        }
      }
    }

    /** One of the three opening events of ConnectionState_incoming. */
    method OpenNext(c: Connection, stage: nat, fate: Fate) returns (ghost v: View)
      requires Valid() && c in all && Routable(fate) && stage < 3 && Stage(stage, c.Seen())
      modifies c, this`closed, table, table.paths.Values, table.known
      ensures Valid() && all == old(all) && Stage(stage + 1, c.Seen()) && v == c.Seen()
      ensures v == ExecSpec(old(c.Seen()), Opener(stage), fate, old(Comes(fate)) == Served, 1)
      ensures forall m :: m in table.known ==> m in old(table.known) || fresh(m)
      ensures forall x :: x in table.paths.Values ==> x in old(table.paths.Values) || fresh(x)
      ensures c.member == null || c.member == old(c.member) || (fresh(c.member) && old(c.member) == null)
      ensures table.Board() == LeftOn(old(table.Board()), old(c.member), c.member)
    {
      hide Table.Board, ServicedOn, Cleared;
      hide Members, Pooled, Routable, Chart, AnyFails, Comes, ExecSpec, Connection.Seen;
      hide Stage, Consecutive, Id, MailFor;
      StageNext(stage, c.Seen(), fate, Comes(fate) == Served);
      NoMemberYet(c);
      var _, _, _ := Exec(c, Opener(stage), fate);
      v := c.Seen();
    }

    /** A step of an opened connection. */
    method Act(c: Connection, step: HubStep) returns (ghost v: View, dead: bool, mail: Mail)
      requires Valid() && c in all && Routable(step.fate) && Stage(3, c.Seen()) && !step.Accept? && !step.Opens?
      modifies c, this`closed, table, table.paths.Values, table.known
      ensures all == old(all) && (!dead ==> Valid() && Stage(3, c.Seen()) && v == c.Seen())
      ensures !dead ==> v == ActedSpec(step, old(c.Seen()), old(Comes(step.fate)))
      ensures forall m :: m in table.known ==> m in old(table.known) || fresh(m)
      ensures forall x :: x in table.paths.Values ==> x in old(table.paths.Values) || fresh(x)
      ensures dead <==> Stops(step, old(c.Seen()), old(Comes(step.fate)))
      ensures mail == if Services(step, old(c.Seen())) then old(MailFor(step.fate)) else NO_MAIL
      ensures c.member == null || c.member == old(c.member)
      ensures !dead ==>
        var services := Services(step, old(c.Seen()));
        table.Board() == BoardAfter(old(table.Board()), services, step.fate, old(c.member), c.member)
    {
      hide Table.Board, ServicedOn, Cleared;
      GoodMeans(c);
      hide Members, Pooled, Routable, Chart, AnyFails, ExecSpec, Consecutive, Id, OutgoingSpec, IncomingSpec, Comes;
      hide MailFor;
      ghost var u, served := c.Seen(), Comes(step.fate) == Served;
      match step {
        case Happens(_, ev, fate) =>
          ExecStaysOpen(u, ev, fate, served);
          var rc;
          rc, dead, mail := Exec(c, ev, fate);
        case Reads(_, arrived, fate) =>
          IncomingStaysOpen(u, arrived, fate, served);
          var turn;
          turn, mail := Incoming(c, arrived, fate);
          dead := turn == Dead;
        case Sends(_, queued, delivered, fate) =>
          OutgoingStaysOpen(u, queued, delivered, fate);
          var turn := Outgoing(c, queued, delivered, fate);
          dead, mail := turn == Dead, NO_MAIL;
      }
      v := c.Seen();
    }
  }

  datatype HubStep =
    | Accept(fate: Fate)
    | Opens(k: nat, fate: Fate)
    | Happens(k: nat, ev: char, fate: Fate)
    | Reads(k: nat, arrived: bool, fate: Fate)
    | Sends(k: nat, queued: bool, delivered: bool, fate: Fate)

  /** The hub's connections, those a run has accepted, and how far each of these is with its opening. */
  datatype Scene = Scene(views: map<Connection, View>, conns: seq<Connection>, stage: map<Connection, nat>)

  /** The opening event behind `stage` others. */
  function Opener(stage: nat): char { if stage == 0 then 'P' else '1' }

  /** What a step makes of an opened connection that it does not halt at. */
  function ActedSpec(step: HubStep, v: View, comes: Servicing): View {
    match step
    case Happens(_, ev, fate) => ExecSpec(v, ev, fate, comes == Served, 1)
    case Reads(_, arrived, fate) => IncomingSpec(v, arrived, fate, comes == Served).0
    case Sends(_, queued, delivered, fate) => OutgoingSpec(v, queued, delivered, fate).0
    case _ => v
  }

  /** The connection a step is about, if it has been accepted. */
  function Actor(a: Scene, step: HubStep): (c: Connection?)
    ensures c != null ==> c in a.views && c in a.stage
  {
    if step.Accept? || step.k >= |a.conns| then null
    else var c := a.conns[step.k]; if c in a.views && c in a.stage then c else null
  }

  /** The scene behind a step. A new client gets a new connection or one that is done. */
  ghost predicate Follows(a: Scene, step: HubStep, comes: Servicing, b: Scene) {
    var c := Actor(a, step);
    if step.Accept? then
      && |b.conns| == |a.conns| + 1
      && var d := b.conns[|a.conns|];
         && (d in a.views ==> IsDone(a.views[d]))
         && b == Scene(a.views[d := OPENED], a.conns + [d], a.stage[d := 0])
    else if c == null then b == a
    else if step.Opens? then
      if a.stage[c] >= 3 then b == a else
        var v := ExecSpec(a.views[c], Opener(a.stage[c]), step.fate, comes == Served, 1);
        b == Scene(a.views[c := v], a.conns, a.stage[c := a.stage[c] + 1])
    else if a.stage[c] != 3 then b == a
    else b == a.(views := a.views[c := ActedSpec(step, a.views[c], comes)])
  }

  /** Does a step get as far as servicing a message? */
  predicate Services(step: HubStep, v: View) {
    match step
    case Happens(_, ev, _) => v.cs == DELIVERING && ev == 's' && v.recvMsg == Some(v.recvCount)
    case Reads(_, arrived, fate) => v.cs == IDLE && arrived && fate.decoded == Some(v.recvCount)
    case _ => false
  }

  /** The same, for a step of a run. */
  predicate Posts(a: Scene, step: HubStep) {
    var c := Actor(a, step);
    c != null && !step.Opens? && a.stage[c] == 3 && Services(step, a.views[c])
  }

  /** The connections, their members, the routing table and the free list as values. */
  datatype Instant = Instant(scene: Scene, members: map<Connection, Member?>, board: Board, free: set<Connection>)

  /**
   A connection has a member exactly if it says so, only members of connections are registered, and free are
   exactly the connections that are done.
   */
  ghost predicate Matched(s: Instant) {
    && s.members.Keys == s.scene.views.Keys
    && (forall d :: d in s.members ==> (s.scene.views[d].joined <==> s.members[d] != null))
    && (forall d, e :: d in s.members && e in s.members && s.members[d] != null && d != e ==>
          s.members[d] != s.members[e])
    && (forall p, m :: p in s.board && m in s.board[p].members ==> m in s.members.Values)
    && s.free == (set d | d in s.scene.views && IsDone(s.scene.views[d]))
    && Opened(s.scene) && (forall d :: d in s.scene.views ==> Sound(s.scene.views[d]))
  }

  /** What a step makes of it all: of the acting connection, of its member, who may be new, and of the table. */
  ghost predicate Moves(s: Instant, step: HubStep, t: Instant) {
    var c := Actor(s.scene, step);
    && Follows(s.scene, step, ComesOn(s.board, step.fate), t.scene)
    && s.members.Keys <= t.members.Keys
    && (forall d :: d in t.members && d != c ==> t.members[d] == if d in s.members then s.members[d] else null)
    && if c == null || c !in s.members then t.board == s.board else
         var was, now := s.members[c], t.members[c];
         && t.board == BoardAfter(s.board, Posts(s.scene, step), step.fate, was, now)
         && (now == null || now == was || (step.Opens? && was == null && now !in s.members.Values))
  }

  /** The mail a step leaves. */
  function MailAt(s: Instant, step: HubStep): Mail {
    if Posts(s.scene, step) then MailOn(s.board, step.fate) else NO_MAIL
  }

  /** Does the process stop at a step, as the table stands? */
  predicate Stopped(s: Instant, step: HubStep) { Halts(s.scene, step, ComesOn(s.board, step.fate)) }

  /** Does the process stop at a step? */
  predicate Halts(a: Scene, step: HubStep, comes: Servicing) {
    var c := Actor(a, step);
    c != null && !step.Opens? && a.stage[c] == 3 && Stops(step, a.views[c], comes)
  }

  /** Every accepted connection is where its stage says. */
  ghost predicate Opened(a: Scene) {
    && (forall k :: 0 <= k < |a.conns| ==> a.conns[k] in a.stage)
    && (forall d :: d in a.stage ==> d in a.views && a.stage[d] <= 3 && Stage(a.stage[d], a.views[d]))
  }

  lemma OpenedFirst(a: Scene)
    requires a.conns == [] && a.stage == map[]
    ensures Opened(a)
  {}

  // How a scene follows from another, case by case.

  lemma OpenedMeans(a: Scene, step: HubStep)
    requires Opened(a) && !step.Accept? && step.k < |a.conns|
    ensures var c := a.conns[step.k];
      Actor(a, step) == c && c in a.stage && c in a.views && a.stage[c] <= 3 && Stage(a.stage[c], a.views[c])
  {}

  lemma AcceptFollows(a: Scene, step: HubStep, comes: Servicing, d: Connection)
    requires Opened(a) && step.Accept? && (d in a.views ==> IsDone(a.views[d]))
    ensures var b := Scene(a.views[d := OPENED], a.conns + [d], a.stage[d := 0]);
      Follows(a, step, comes, b) && Opened(b) && !Halts(a, step, comes)
  {}

  lemma IdleFollows(a: Scene, step: HubStep, comes: Servicing)
    requires Opened(a) && !step.Accept?
    requires step.k >= |a.conns| ||
      (var c := a.conns[step.k];
       c in a.stage && if step.Opens? then a.stage[c] >= 3 else a.stage[c] != 3)
    ensures Follows(a, step, comes, a) && !Halts(a, step, comes)
  {}

  lemma OpensFollows(a: Scene, step: HubStep, comes: Servicing, v: View)
    requires Opened(a) && step.Opens? && step.k < |a.conns|
    requires var c := a.conns[step.k];
      && c in a.stage && a.stage[c] < 3 && c in a.views && Stage(a.stage[c] + 1, v)
      && v == ExecSpec(a.views[c], Opener(a.stage[c]), step.fate, comes == Served, 1)
    ensures var c := a.conns[step.k];
      var b := Scene(a.views[c := v], a.conns, a.stage[c := a.stage[c] + 1]);
      Follows(a, step, comes, b) && Opened(b) && !Halts(a, step, comes)
  {
    hide ExecSpec, Stage;
  }

  lemma HaltsWhenStops(a: Scene, step: HubStep, comes: Servicing)
    requires Opened(a) && !step.Accept? && !step.Opens? && step.k < |a.conns|
    ensures var c := a.conns[step.k];
      c in a.stage && c in a.views && (Halts(a, step, comes) <==> a.stage[c] == 3 && Stops(step, a.views[c], comes))
  {
    hide Stops, Stage;
  }

  lemma ActFollows(a: Scene, step: HubStep, comes: Servicing, v: View)
    requires Opened(a) && !step.Accept? && !step.Opens? && step.k < |a.conns|
    requires var c := a.conns[step.k];
      c in a.stage && a.stage[c] == 3 && c in a.views && Stage(3, v) && v == ActedSpec(step, a.views[c], comes)
    ensures var b := a.(views := a.views[a.conns[step.k] := v]);
      Follows(a, step, comes, b) && Opened(b)
  {
    hide ActedSpec, Stage;
  }

  /**
   A step that stops the process: sending on a connection that is closing, or a message that comes up
   while it is aborting; or servicing a message with the right number that asks for a nameless route.
   */
  predicate Stops(step: HubStep, v: View, comes: Servicing) {
    match step
    case Sends(_, queued, _, _) => v.cs == CLOSING || (queued && v.cs == ABORTING)
    case Reads(_, arrived, fate) => v.cs == IDLE && arrived && fate.decoded == Some(v.recvCount) && comes == Dies
    case Happens(_, ev, _) => v.cs == DELIVERING && ev == 's' && v.recvMsg == Some(v.recvCount) && comes == Dies
    case _ => false
  }

  // ---------------------------------------------------------------- the two tasks of a connection

  predicate IsDone(v: View) { v.cs == ERROR || v.cs == FINAL }

  /** How a round of a task's loop ends: with another, with the end of the loop, or with the process. */
  datatype Turn = Again | Ends | Dead

  /** A header with the next id goes out. */
  function Sending(v: View): View { v.(sendCount := Succ(v.sendCount), sent := v.sent + [v.sendCount]) }

  /** A round of ConnectionState_outgoing: a message from the queue is announced, sent and reported. */
  function OutgoingSpec(v: View, queued: bool, delivered: bool, fate: Fate): (View, Turn) {
    if IsDone(v) then (v, Ends)
    else if !v.joined then (v, Dead)
    else if !queued then (v.(sendMsg := false), Ends)
    else
      var w := ExecSpec(v.(sendMsg := true), 'Q', fate, false, 1);
      if Verdict(w.cs) != 0 then (w, Again)
      else if !w.joined then (w, Dead)
      else if delivered then (ExecSpec(Sending(w), 'e', fate, false, 1), Again)
      else (ExecSpec(Sending(w), '0', fate, false, 1), Ends)
  }

  /** A round of ConnectionState_incoming: a message is read, decoded and serviced. */
  function IncomingSpec(v: View, arrived: bool, fate: Fate, served: bool): (View, Turn) {
    if IsDone(v) || !v.client then (v, Ends)
    else if !v.joined then (v, Dead)
    else if !arrived then (v.(recvPending := false), Ends)
    else (ReceiveSpec(v.(recvPending := true), fate, served), Again)
  }

  function ReceiveSpec(v: View, fate: Fate, served: bool): View {
    var w := ExecSpec(v, 'R', fate, served, 1);
    if Verdict(w.cs) == 0 && w.recvMsg.Some? then ExecSpec(w, 's', fate, served, 1) else w
  }

  /** What the tasks rely on of a connection between any two events. */
  predicate Sound(v: View) {
    && v.cs <= FINAL && (v.client <==> v.cs != ERROR && v.cs != CLOSING && v.cs != FINAL)
    && (v.joined ==> v.client) && (v.cs <= TUNING ==> !v.joined)
    && ((REGISTERING <= v.cs <= SENDING || v.cs == DELIVERING) ==> v.joined)
  }

  /** An event with one action. */
  lemma Single(v: View, ev: char, a: Action, fate: Fate, served: bool)
    requires !IsDone(v) && Chart(v.cs, ev).actions == [a]
    ensures var (w, aborted) := ActSpec(v.(cs := Chart(v.cs, ev).target), a, fate, served, 1);
      ExecSpec(v, ev, fate, served, 1) == if aborted then w.(cs := ABORTING) else w
  {
    hide ActSpec, Chart;
    var u := v.(cs := Chart(v.cs, ev).target);
    assert [a][1..] == [];
    RunNext(u, [a], fate, served, 1);
    RunDone(ActSpec(u, a, fate, served, 1).0, fate, served, 1);
  }

  /** An event with two, of which the first cannot fail. */
  lemma Double(v: View, ev: char, a: Action, b: Action, fate: Fate, served: bool)
    requires !IsDone(v) && Chart(v.cs, ev).actions == [a, b] && !CanFail(a)
    ensures var w := ActSpec(v.(cs := Chart(v.cs, ev).target), a, fate, served, 1).0;
      var (x, aborted) := ActSpec(w, b, fate, served, 1);
      ExecSpec(v, ev, fate, served, 1) == if aborted then x.(cs := ABORTING) else x
  {
    var u := v.(cs := Chart(v.cs, ev).target);
    ActMeans(u, a, fate, served, 1);
    hide ActSpec, Chart;
    assert [a, b][1..] == [b] && [b][1..] == [];
    RunNext(u, [a, b], fate, served, 1);
    var w := ActSpec(u, a, fate, served, 1).0;
    RunNext(w, [b], fate, served, 1);
    RunDone(ActSpec(w, b, fate, served, 1).0, fate, served, 1);
  }

  /** What an event that is not expected does, and any event while aborting. */
  lemma Shuts(v: View, ev: char, fate: Fate, served: bool)
    requires !IsDone(v) && (v.cs == ABORTING || Chart(v.cs, ev) == Step(ERROR, [Error]))
    ensures ExecSpec(v, ev, fate, served, 1)
         == v.(cs := if v.cs == ABORTING then CLOSING else ERROR, client := false, joined := false)
  {
    hide ExecSpec;
    if v.cs == ABORTING {
      Double(v, ev, Aborted, HalfClose, fate, served);
    } else {
      Single(v, ev, Error, fate, served);
    }
  }

  /**
   After a queued message is announced without an error, there is a member to send it to exactly if
   the connection was idle; the other way is through aborting, which closes the connection first.
   */
  lemma QueuedMember(v: View, fate: Fate)
    requires Sound(v) && !IsDone(v)
    ensures var w := ExecSpec(v, 'Q', fate, false, 1);
      && (Verdict(w.cs) == 0 <==> v.cs == IDLE || v.cs == ABORTING)
      && (Verdict(w.cs) == 0 ==> (w.joined <==> v.cs == IDLE))
      && (v.cs == IDLE ==> w == v.(cs := SENDING))
  {
    hide ExecSpec;
    if v.cs == IDLE { Single(v, 'Q', MsgReady, fate, false); } else { Shuts(v, 'Q', fate, false); }
  }

  /** What receiving a message does. */
  lemma Receives(v: View, fate: Fate, served: bool)
    requires Sound(v) && !IsDone(v) && v.recvPending
    ensures var w := ExecSpec(v, 'R', fate, served, 1);
      if v.cs == IDLE && fate.decoded.Some? then w == v.(cs := DELIVERING, recvMsg := fate.decoded)
      else w.cs in {ABORTING, CLOSING, ERROR} && (v.cs == IDLE ==> w == v.(cs := ABORTING, recvMsg := None))
  {
    hide ExecSpec;
    if v.cs == IDLE { Single(v, 'R', RecvMsg, fate, served); } else { Shuts(v, 'R', fate, served); }
  }

  lemma ServiceActs(v: View, fate: Fate, served: bool)
    ensures v.recvMsg == Some(v.recvCount) ==>
      ActSpec(v, MsgidCheck, fate, served, 1) == (v.(recvCount := Succ(v.recvCount)), false)
    ensures v.recvMsg.Some? ==>
      ActSpec(v, Service, fate, served, 1) == (v.(serviced := v.serviced + [v.recvMsg.value]), !served)
    ensures ActSpec(v, ClearRecv, fate, served, 1) == (v.(recvMsg := None, recvPending := false), false)
  {}

  /** What servicing does to a message with the expected id. */
  lemma Delivers(v: View, fate: Fate, served: bool)
    requires v.cs == DELIVERING && v.recvMsg == Some(v.recvCount)
    ensures ExecSpec(v, 's', fate, served, 1) ==
      var w := v.(cs := IDLE, recvCount := Succ(v.recvCount), serviced := v.serviced + [v.recvCount]);
      if served then w.(recvMsg := None, recvPending := false) else w.(cs := ABORTING)
  {
    var acts := [MsgidCheck, Service, ClearRecv];
    assert Chart(v.cs, 's') == Step(IDLE, acts);
    hide ActSpec, Chart, RunSpec, Succ;
    assert acts[1..] == [Service, ClearRecv] && [Service, ClearRecv][1..] == [ClearRecv] && [ClearRecv][1..] == [];
    var u := v.(cs := IDLE);
    var w := u.(recvCount := Succ(v.recvCount));
    var x := w.(serviced := v.serviced + [v.recvCount]);
    ServiceActs(u, fate, served);
    ServiceActs(w, fate, served);
    ServiceActs(x, fate, served);
    RunNext(u, acts, fate, served, 1);
    RunNext(w, [Service, ClearRecv], fate, served, 1);
    RunNext(x, [ClearRecv], fate, served, 1);
    RunDone(x.(recvMsg := None, recvPending := false), fate, served, 1);
  }

  /** What reporting a message as sent, or not, does. */
  lemma Reports(v: View, delivered: bool, fate: Fate)
    requires v.cs == SENDING
    ensures ExecSpec(v, if delivered then 'e' else '0', fate, false, 1)
         == v.(cs := if delivered then IDLE else ABORTING, sendMsg := false)
  {
    hide ExecSpec;
    if delivered { Double(v, 'e', Sent, ClearSend, fate, false); } else { Single(v, '0', ClearSend, fate, false); }
  }

  /** On the way out, or out. */
  predicate Leaving(v: View) { v.cs == ABORTING || v.cs == CLOSING || IsDone(v) }

  lemma NeverBack(v: View, ev: char, fate: Fate, served: bool)
    requires Leaving(v)
    ensures var w := ExecSpec(v, ev, fate, served, 1);
      Leaving(w) && w.sent == v.sent && (!IsDone(v) && ev == 'Q' ==> !w.joined)
  {
    if !IsDone(v) {
      hide ExecSpec;
      if v.cs == CLOSING && IsClose(ev) {
        Single(v, ev, RestClose, fate, served);
        ActKinds(v.(cs := FINAL), RestClose, fate, served, 1);
        hide ActSpec;
      } else {
        Shuts(v, ev, fate, served);
      }
    }
  }

  /** The handshake within the opening, when it goes well as far as the member. */
  lemma Tunes(v: View, fate: Fate, served: bool)
    requires v.cs == KEYCHECK
    ensures ExecSpec(v, '1', fate, served, 1) ==
      if !fate.confirming then v.(cs := ABORTING)
      else v.(cs := if fate.loggedIn && fate.tuned then REGISTERING else ABORTING, joined := fate.loggedIn)
  {
    Single(v, '1', Tune, fate, served);
    var u := v.(cs := TUNING);
    Confirms(u, fate, served, 0);
    assert ActSpec(u, Tune, fate, served, 1) ==
      if !fate.confirming then (u, true)
      else var w := ExecSpec(u, '1', fate, served, 0); (w, Verdict(w.cs) != 0 || !fate.tuned);
    hide ExecSpec, ActSpec;
  }

  /** A connection whose opening goes well is idle and has a member. */
  lemma OpensToIdle(v: View, good: Fate, served: bool)
    requires v.cs == START && v.client && good.peerMade && good.confirming && good.loggedIn && good.tuned
    ensures var keyed := ExecSpec(ExecSpec(v, 'O', good, served, 1), 'P', good, served, 1);
      var idle := ExecSpec(ExecSpec(keyed, '1', good, served, 1), '1', good, served, 1);
      idle == v.(cs := IDLE, peer := true, joined := true, recvCount := 1,
                  sendCount := 1, begun := true, serviced := [], sent := [])
  {
    hide ExecSpec;
    Double(v, 'O', Begin, OpenUp, good, served);
    var a := ExecSpec(v, 'O', good, served, 1);
    Single(a, 'P', KeyPrep, good, served);
    var b := ExecSpec(a, 'P', good, served, 1);
    Tunes(b, good, served);
    Single(b.(cs := REGISTERING, joined := true), '1', Established, good, served);
  }

  /** A message the hub cannot decode, and then one for its sender: from a fresh connection to the missing member. */
  lemma AbortedSend(v: View, good: Fate, bad: Fate, any: Fate, delivered: bool, served: bool)
    requires v.cs == START && v.client && good.peerMade && good.confirming && good.loggedIn && good.tuned
    requires bad.decoded.None?
    ensures
      var keyed := ExecSpec(ExecSpec(v, 'O', good, served, 1), 'P', good, served, 1);
      var idle := ExecSpec(ExecSpec(keyed, '1', good, served, 1), '1', good, served, 1);
      var (aborting, turn) := IncomingSpec(idle, true, bad, served);
      && turn == Again && aborting == idle.(cs := ABORTING, recvPending := true, recvMsg := None) && aborting.joined
      && OutgoingSpec(aborting, true, delivered, any).1 == Dead
  {
    hide ExecSpec;
    OpensToIdle(v, good, served);
    var keyed := ExecSpec(ExecSpec(v, 'O', good, served, 1), 'P', good, served, 1);
    var idle := ExecSpec(ExecSpec(keyed, '1', good, served, 1), '1', good, served, 1);
    DecodeFails(idle, bad, any, delivered, served);
  }

  lemma DecodeFails(idle: View, bad: Fate, any: Fate, delivered: bool, served: bool)
    requires idle.cs == IDLE && idle.joined && idle.client && bad.decoded.None?
    ensures var aborting := idle.(cs := ABORTING, recvPending := true, recvMsg := None);
      && IncomingSpec(idle, true, bad, served) == (aborting, Again)
      && OutgoingSpec(aborting, true, delivered, any).1 == Dead
  {
    hide ExecSpec;
    var w := idle.(recvPending := true);
    Receives(w, bad, served);
    QueuedMember(w.(cs := ABORTING, recvMsg := None, sendMsg := true), any);
  }

  /** Only a message being serviced makes a difference to whether it is. */
  lemma {:induction false} ServedMatters(v: View, ev: char, fate: Fate, a: bool, b: bool)
    requires ev != 's'
    ensures ExecSpec(v, ev, fate, a, 1) == ExecSpec(v, ev, fate, b, 1)
  {
    ExecSame(v, ev, fate, a, b, 1);
  }

  lemma {:induction false} ExecSame(v: View, ev: char, fate: Fate, a: bool, b: bool, depth: nat)
    requires ev != 's'
    ensures ExecSpec(v, ev, fate, a, depth) == ExecSpec(v, ev, fate, b, depth)
    decreases depth, 2, 0
  {
    ChartTunes(v.cs, ev);
    hide Chart, RunSpec;
    RunSame(v.(cs := Chart(v.cs, ev).target), Chart(v.cs, ev).actions, fate, a, b, depth);
  }

  lemma {:induction false} RunSame(v: View, acts: seq<Action>, fate: Fate, a: bool, b: bool, depth: nat)
    requires Service !in acts
    ensures RunSpec(v, acts, fate, a, depth) == RunSpec(v, acts, fate, b, depth)
    decreases depth, 1, |acts|
  {
    if acts == [] {
    } else {
      hide RunSpec, ActSpec;
      ActSame(v, acts[0], fate, a, b, depth);
      RunNext(v, acts, fate, a, depth);
      RunNext(v, acts, fate, b, depth);
      RunSame(ActSpec(v, acts[0], fate, a, depth).0, acts[1..], fate, a, b, depth);
    }
  }

  lemma {:induction false} ActSame(v: View, act: Action, fate: Fate, a: bool, b: bool, depth: nat)
    requires act != Service
    ensures ActSpec(v, act, fate, a, depth) == ActSpec(v, act, fate, b, depth)
    decreases depth, 0, 0
  {
    if act.Tune? && depth > 0 {
      ExecSame(v, '1', fate, a, b, depth - 1);
      hide ExecSpec;
    }
  }

  // ---------------------------------------------------------------- opening

  /** A connection behind the first `i` of its opening events; behind all three, a client means a member. */
  predicate Stage(i: nat, v: View) {
    match i
    case 0 => v.cs == ACCEPTING
    case 1 => v.cs == KEYCHECK || v.cs == ABORTING
    case 2 => (v.cs == REGISTERING && v.joined) || v.cs == ABORTING || (v.cs == CLOSING && !v.client)
    case _ => (v.cs == ERROR || IDLE <= v.cs <= FINAL) && (v.client ==> v.joined)
  }

  lemma StageNext(i: nat, v: View, fate: Fate, served: bool)
    requires i < 3 && Stage(i, v)
    ensures Stage(i + 1, ExecSpec(v, if i == 0 then 'P' else '1', fate, served, 1))
  {
    hide ExecSpec;
    if i == 0 {
      Single(v, 'P', KeyPrep, fate, served);
    } else if v.cs == KEYCHECK {
      Tunes(v, fate, served);
    } else if v.cs == REGISTERING {
      Single(v, '1', Established, fate, served);
    } else {
      Shuts(v, '1', fate, served);
    }
  }

  /** Only here can a member log in. */
  predicate Admits(cs: nat, ev: char) { ev == '1' && (cs == KEYCHECK || cs == TUNING) }

  /** The actions that bring in a member. */
  predicate Joins(a: Action) { a.RegisterMember? || a.Tune? }

  lemma ActKeepsMember(v: View, a: Action, fate: Fate, served: bool)
    requires !Joins(a)
    ensures var w := ActSpec(v, a, fate, served, 1).0;
      w.cs == v.cs && ((w.client == v.client && w.joined == v.joined) || (!w.client && !w.joined))
  {
    hide ActSpec, LocalSpec;
    ActKinds(v, a, fate, served, 1);
    LocalKeepsMember(v, a, fate);
    if a.Service? { ServiceKeepsMember(v, fate, served); }
  }

  lemma LocalKeepsMember(v: View, a: Action, fate: Fate)
    ensures var w := LocalSpec(v, a, fate).0; w.cs == v.cs && w.client == v.client && w.joined == v.joined
  {}

  lemma ServiceKeepsMember(v: View, fate: Fate, served: bool)
    ensures var w := ActSpec(v, Service, fate, served, 1).0;
      w.cs == v.cs && w.client == v.client && w.joined == v.joined
  {}

  lemma {:induction false} RunKeepsMember(v: View, acts: seq<Action>, fate: Fate, served: bool)
    requires forall i :: 0 <= i < |acts| ==> !Joins(acts[i])
    ensures var w := RunSpec(v, acts, fate, served, 1);
      && (w.cs == v.cs || w.cs == ABORTING)
      && ((w.client == v.client && w.joined == v.joined) || (!w.client && !w.joined))
    decreases |acts|
  {
    if acts == [] {
      RunDone(v, fate, served, 1);
    } else {
      hide RunSpec, ActSpec;
      ActKeepsMember(v, acts[0], fate, served);
      RunNext(v, acts, fate, served, 1);
      RunKeepsMember(ActSpec(v, acts[0], fate, served, 1).0, acts[1..], fate, served);
    }
  }

  lemma ChartStaysOpen(cs: nat, ev: char)
    requires IDLE <= cs < FINAL
    ensures var s := Chart(cs, ev);
      && (s.target == ERROR || IDLE <= s.target <= FINAL)
      && forall i :: 0 <= i < |s.actions| ==> !Joins(s.actions[i])
  {}

  /** An opened connection stays one, whatever happens. */
  lemma ExecStaysOpen(v: View, ev: char, fate: Fate, served: bool)
    requires Stage(3, v)
    ensures Stage(3, ExecSpec(v, ev, fate, served, 1))
  {
    if !IsDone(v) {
      ChartStaysOpen(v.cs, ev);
      hide Chart;
      RunKeepsMember(v.(cs := Chart(v.cs, ev).target), Chart(v.cs, ev).actions, fate, served);
    }
  }

  lemma IncomingStaysOpen(v: View, arrived: bool, fate: Fate, served: bool)
    requires Stage(3, v)
    ensures Stage(3, IncomingSpec(v, arrived, fate, served).0) && IncomingSpec(v, arrived, fate, served).1 != Dead
  {
    hide ExecSpec;
    var u := v.(recvPending := true);
    ExecStaysOpen(u, 'R', fate, served);
    ExecStaysOpen(ExecSpec(u, 'R', fate, served, 1), 's', fate, served);
  }

  lemma OutgoingStaysOpen(v: View, queued: bool, delivered: bool, fate: Fate)
    requires Stage(3, v)
    ensures Stage(3, OutgoingSpec(v, queued, delivered, fate).0)
  {
    hide ExecSpec;
    var u := v.(sendMsg := true);
    ExecStaysOpen(u, 'Q', fate, false);
    var w := ExecSpec(u, 'Q', fate, false, 1);
    ExecStaysOpen(Sending(w), 'e', fate, false);
    ExecStaysOpen(Sending(w), '0', fate, false);
  }

  /** The actions that lead up to carrying out a request. */
  predicate Serves(a: Action) { a.MsgidCheck? || a.Service? }

  lemma RunNext(v: View, acts: seq<Action>, fate: Fate, served: bool, depth: nat)
    requires acts != []
    ensures var (w, aborted) := ActSpec(v, acts[0], fate, served, depth);
      RunSpec(v, acts, fate, served, depth)
      == if aborted then w.(cs := ABORTING) else RunSpec(w, acts[1..], fate, served, depth)
  {}

  lemma ActKinds(v: View, a: Action, fate: Fate, served: bool, depth: nat)
    ensures IsClosing(a) ==> ActSpec(v, a, fate, served, depth) == (CloseSpec(v, a), false)
    ensures !IsClosing(a) && !IsWork(a) ==> ActSpec(v, a, fate, served, depth) == LocalSpec(v, a, fate)
  {}

  lemma ActMeans(v: View, a: Action, fate: Fate, served: bool, depth: nat)
    ensures !a.Tune? ==> ActSpec(v, a, fate, served, depth).0.cs == v.cs
    ensures ActSpec(v, a, fate, served, depth).1 ==> CanFail(a)
    ensures a.Tune? && v.cs == TUNING && !ActSpec(v, a, fate, served, depth).1 ==>
      ActSpec(v, a, fate, served, depth).0.cs == REGISTERING || ActSpec(v, a, fate, served, depth).0.cs == ABORTING
  {
    if a.Tune? && v.cs == TUNING && depth > 0 { Confirms(v, fate, served, depth - 1); }
  }

  /** The step within the handshake: the member is registered, or the connection is aborting. */
  lemma Confirms(v: View, fate: Fate, served: bool, depth: nat)
    requires v.cs == TUNING
    ensures ExecSpec(v, '1', fate, served, depth)
         == v.(cs := if fate.loggedIn then REGISTERING else ABORTING, joined := fate.loggedIn)
  {
    var w := v.(cs := REGISTERING);
    assert Chart(TUNING, '1') == Step(REGISTERING, [RegisterMember]);
    RunNext(w, [RegisterMember], fate, served, depth);
    assert [RegisterMember][1..] == [];
  }

  lemma RunDone(v: View, fate: Fate, served: bool, depth: nat)
    ensures RunSpec(v, [], fate, served, depth) == v
  {}

  /** The actions that can jump to Aborting. */
  predicate CanFail(a: Action) {
    a.KeyPrep? || a.Tune? || a.RegisterMember? || a.RecvMsg? || a.MsgidCheck? || a.Service?
  }

  predicate AnyFails(acts: seq<Action>) { exists i :: 0 <= i < |acts| && CanFail(acts[i]) }

  /** Outside the handshake, the actions leave the state the transition led to, or one of them jumps to Aborting. */
  lemma {:induction false} RunLeadsTo(v: View, acts: seq<Action>, fate: Fate, served: bool, depth: nat)
    requires forall i :: 0 <= i < |acts| && acts[i].Tune? ==> v.cs == TUNING
    ensures var w := RunSpec(v, acts, fate, served, depth);
      v.cs != TUNING ==> w.cs == v.cs || (w.cs == ABORTING && AnyFails(acts))
    decreases |acts|
  {
    if acts == [] {
      RunDone(v, fate, served, depth);
    } else if v.cs != TUNING {
      RunNext(v, acts, fate, served, depth);
      ActMeans(v, acts[0], fate, served, depth);
      hide RunSpec, ActSpec;
      var (w, aborted) := ActSpec(v, acts[0], fate, served, depth);
      if !aborted {
        RunLeadsTo(w, acts[1..], fate, served, depth);
        if AnyFails(acts[1..]) {
          var i :| 0 <= i < |acts[1..]| && CanFail(acts[1..][i]);
          assert CanFail(acts[i + 1]);
        }
      }
    }
  }

  lemma OpensUp(v: View, fate: Fate, served: bool)
    requires v == BLANK.(cs := START, client := true)
    ensures ExecSpec(v, 'O', fate, served, 1) == OPENED
  {
    hide ExecSpec;
    Double(v, 'O', Begin, OpenUp, fate, served);
  }

  lemma ChartTunes(cs: nat, ev: char)
    ensures Chart(cs, ev).actions != [] && (Chart(cs, ev).target == TUNING ==> cs == KEYCHECK)
    ensures Serves(Chart(cs, ev).actions[0]) ==> cs == DELIVERING
    ensures ev != 's' ==> Service !in Chart(cs, ev).actions
    ensures !Admits(cs, ev) ==> forall a :: a in Chart(cs, ev).actions ==> !Joins(a)
    ensures cs == IDLE && ev == 'R' ==> forall a :: a in Chart(cs, ev).actions ==> IsLocal(a)
    ensures forall i :: 0 <= i < |Chart(cs, ev).actions| && Chart(cs, ev).actions[i].Tune? ==>
      Chart(cs, ev).target == TUNING
  {}

  /** The names a scanner can produce hold no NUL. */
  predicate Routable(fate: Fate) {
    && (fate.data.Node? && fate.data.name.Some? ==> NulFree(PathOf(fate.data)))
    && (Inner(fate.data).Node? && Inner(fate.data).name.Some? ==> NulFree(PathOf(Inner(fate.data))))
  }

  /** Do the actions get as far as servicing the message? */
  predicate Reaches(v: View, acts: seq<Action>) {
    acts != [] && (acts[0].Service? || (acts[0].MsgidCheck? && v.recvMsg == Some(v.recvCount)))
  }

  lemma ChartReaches(v: View, ev: char)
    ensures Reaches(v.(cs := Chart(v.cs, ev).target), Chart(v.cs, ev).actions)
       <==> Serving(v, ev)
  {}

  /** Does the event lead to servicing a message? */
  predicate Serving(v: View, ev: char) { v.cs == DELIVERING && ev == 's' && v.recvMsg == Some(v.recvCount) }

  lemma DoneServesNot(v: View, ev: char)
    ensures IsDone(v) ==> !Serving(v, ev)
  {}

  lemma ReachesNext(v: View, acts: seq<Action>, fate: Fate, served: bool, depth: nat)
    requires acts != [] && (acts[0].MsgidCheck? ==> |acts| > 1 && acts[1].Service?)
    requires !acts[0].MsgidCheck? && |acts| > 1 ==> !Serves(acts[1])
    ensures var (w, aborted) := ActSpec(v, acts[0], fate, served, depth);
      if acts[0].Service? then Reaches(v, acts) else Reaches(v, acts) <==> !aborted && Reaches(w, acts[1..])
  {}

  /** Nothing but the connection itself is touched behind a login or a serviced message. */
  predicate Tidy(acts: seq<Action>) {
    forall i, j :: 0 <= i < j < |acts| && (Joins(acts[i]) || acts[i].Service?) ==> IsLocal(acts[j])
  }

  lemma ChartTidy(cs: nat, ev: char)
    ensures Tidy(Chart(cs, ev).actions)
  {}

  /**
   The table, the member and the mail on the way through a transition that had the table `b` and the
   member `was`; `reached`: it gets to servicing a message, and `ahead`: it has not yet.
   */
  predicate Along(b: Board, was: Member?, reached: bool, fate: Fate, acts: seq<Action>, ahead: bool,
      board: Board, now: Member?, mail: Mail)
  {
    && Tidy(acts) && (ahead ==> reached)
    && (if ahead then board == b && now == was else board == BoardAfter(b, reached, fate, was, now))
    && (reached && !ahead ==> now == was && ComesOn(b, fate) != Dies)
    && ((reached && !ahead) || (now != null && now != was) ==> forall a :: a in acts ==> IsLocal(a))
    && mail == if reached && !ahead then MailOn(b, fate) else NO_MAIL
  }

  lemma AlongFirst(b: Board, was: Member?, reached: bool, fate: Fate, acts: seq<Action>)
    requires Tidy(acts)
    ensures Along(b, was, reached, fate, acts, reached, b, was, NO_MAIL)
  {
    hide ServicedOn, Cleared, Tidy, ComesOn, MailOn;
  }

  lemma AlongNext(b: Board, was: Member?, reached: bool, fate: Fate,
      acts: seq<Action>, ahead: bool, board: Board, mid: Member?, mail: Mail,
      rest: seq<Action>, ahead': bool, board': Board, now: Member?, mail': Mail)
    requires acts != [] && Along(b, was, reached, fate, acts, ahead, board, mid, mail)
    requires rest == [] || rest == acts[1..]
    requires board' == BoardAfter(board, acts[0].Service?, fate, mid, now)
    requires if acts[0].Service? then ahead && !ahead' && ComesOn(board, fate) != Dies else ahead' == ahead
    requires ahead ==> Serves(acts[0])
    requires IsLocal(acts[0]) || acts[0].Service? ==> now == mid
    requires !Joins(acts[0]) ==> now == null || now == mid
    requires now == null || now == mid || now != was
    requires mail' == if acts[0].Service? then MailOn(board, fate) else mail
    ensures Along(b, was, reached, fate, rest, ahead', board', now, mail')
  {
    hide ServicedOn, Cleared, ComesOn, MailOn;
    forall i, j | 0 <= i < j < |rest| && (Joins(rest[i]) || rest[i].Service?)
      ensures IsLocal(rest[j])
    {
      assert rest[i] == acts[i + 1] && rest[j] == acts[j + 1];
    }
    forall a | a in rest && (acts[0].Service? || Joins(acts[0]))
      ensures IsLocal(a)
    {
      var j :| 0 <= j < |rest| && rest[j] == a;
      assert a == acts[j + 1];
    }
  }

  lemma AlongMeans(b: Board, was: Member?, reached: bool, fate: Fate, acts: seq<Action>, ahead: bool,
      board: Board, now: Member?, mail: Mail)
    requires Along(b, was, reached, fate, acts, ahead, board, now, mail)
    ensures ahead ==> reached && board == b
    ensures !ahead ==> board == BoardAfter(b, reached, fate, was, now)
    ensures !ahead ==> mail == (if reached then MailOn(b, fate) else NO_MAIL) && (reached ==> ComesOn(b, fate) != Dies)
    ensures reached && !ahead && acts != [] ==> IsLocal(acts[0])
  {
    hide BoardAfter, ComesOn, MailOn, Tidy;
  }

  /** An action of the connection alone leaves the table. */
  lemma SameBoard(b: Board, a: Action, fate: Fate, was: Member?, now: Member?)
    ensures IsLocal(a) && now == was ==> BoardAfter(b, a.Service?, fate, was, now) == b
  {
    hide ServicedOn, Cleared;
  }

  /** Members that leave make no difference to what comes of a message. */
  lemma StillComes(b: Board, fate: Fate, was: Member?, now: Member?)
    ensures ComesOn(BoardAfter(b, false, fate, was, now), fate) == ComesOn(b, fate)
    ensures now == was ==> BoardAfter(b, false, fate, was, now) == b
  {
    hide ServicedOn, Roomy, Count, PathOf, Counting.Others;
  }

  lemma ReachesFirst(v: View, acts: seq<Action>)
    requires acts != []
    ensures Reaches(v, acts) ==> Serves(acts[0])
    ensures acts[0].Service? ==> Reaches(v, acts)
  {}

  lemma NothingReached(v: View)
    ensures !Reaches(v, [])
  {}
}
