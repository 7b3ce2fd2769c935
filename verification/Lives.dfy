/**
 What the state chart means for a connection: what each event makes of it, when it ends, and that over
 every run one that has not ended is neither free nor handed out again.
 */
module Lives {
  import opened Bytes
  import opened Connections

  // ---------------------------------------------------------------- what an event makes of a connection

  /** The events a state waits for. */
  predicate Expects(cs: nat, ev: char) {
    if cs == START then ev == 'O'
    else if cs == ACCEPTING then ev in "Prw"
    else if cs == KEYCHECK || cs == TUNING || cs == REGISTERING then ev in "1rw"
    else if cs == IDLE then ev in "RQHrw"
    else if cs == HATED then ev == 'h'
    else if cs == AWAITING then ev == 'b'
    else if cs == VALIDATING then ev in "Vv"
    else if cs == SENDING then ev in "e0"
    else if cs == DELIVERING then ev == 's'
    else if cs == CLOSING then ev in "rw"
    else cs == ABORTING
  }

  /** Client and member are gone. */
  function Parted(v: View, cs: nat): View { v.(cs := cs, client := false, joined := false) }

  /**
   A connection behind an event. A first close parts with client and member, the second ends it; so does, at
   once, an event it does not expect. What fails on the way leads to Aborting, and from there anything parts.
   */
  function After(v: View, ev: char, fate: Fate, served: bool): View {
    if IsDone(v) then v
    else if !Expects(v.cs, ev) then Parted(v, ERROR)
    else if v.cs == CLOSING then v.(cs := FINAL)
    else if v.cs == ABORTING || ev in "rw" then Parted(v, CLOSING)
    else Goes(v, ev, fate, served)
  }

  /** What an event does that a connection in use was waiting for. */
  function Goes(v: View, ev: char, fate: Fate, served: bool): (w: View)
    ensures !IsDone(w)
  {
    match ev
    case 'O' => v.(cs := ACCEPTING, recvCount := 1, sendCount := 1, begun := true, serviced := [], sent := [])
    case 'P' => v.(cs := if fate.peerMade then KEYCHECK else ABORTING, peer := fate.peerMade)
    case '1' => Admitted(v, fate)
    case 'R' => Heard(v, fate)
    case 's' => Answered(v, served)
    case 'Q' => v.(cs := SENDING)
    case 'e' => v.(cs := IDLE, sendMsg := false)
    case '0' => v.(cs := ABORTING, sendMsg := false)
    case 'H' => v.(cs := HATED)
    case 'h' => v.(cs := AWAITING)
    case 'b' => v.(cs := VALIDATING)
    case _ => v.(cs := IDLE)
  }

  /** The handshake with the login it asks for, the login alone, or the end of the opening. */
  function Admitted(v: View, fate: Fate): (w: View)
    ensures !IsDone(w)
  {
    if v.cs == REGISTERING then v.(cs := IDLE)
    else if v.cs == TUNING then v.(cs := if fate.loggedIn then REGISTERING else ABORTING, joined := fate.loggedIn)
    else if !fate.confirming then v.(cs := ABORTING)
    else v.(cs := if fate.loggedIn && fate.tuned then REGISTERING else ABORTING, joined := fate.loggedIn)
  }

  /** What was read is a message, or it is not. */
  function Heard(v: View, fate: Fate): (w: View)
    ensures !IsDone(w)
  {
    if !v.recvPending then v.(cs := ABORTING)
    else v.(cs := if fate.decoded.Some? then DELIVERING else ABORTING, recvMsg := fate.decoded)
  }

  /** A message with the next number is carried out; with another number, or when that is refused, all is over. */
  function Answered(v: View, served: bool): (w: View)
    ensures !IsDone(w)
  {
    if v.recvMsg != Some(v.recvCount) then v.(cs := ABORTING) else
      var w := v.(recvCount := Succ(v.recvCount), serviced := v.serviced + [v.recvCount]);
      if served then w.(cs := IDLE, recvMsg := None, recvPending := false) else w.(cs := ABORTING)
  }

  // The chart and its actions do exactly that.

  lemma ShutIs(v: View, ev: char, fate: Fate, served: bool)
    requires !IsDone(v) && (v.cs == ABORTING || !Expects(v.cs, ev))
    ensures ExecSpec(v, ev, fate, served, 1) == After(v, ev, fate, served)
  {
    hide ExecSpec;
    Shuts(v, ev, fate, served);
  }

  lemma CloseIs(v: View, ev: char, fate: Fate, served: bool)
    requires (ACCEPTING <= v.cs <= IDLE || v.cs == CLOSING) && ev in "rw"
    ensures ExecSpec(v, ev, fate, served, 1) == After(v, ev, fate, served)
  {
    hide ExecSpec;
    Single(v, ev, if v.cs == CLOSING then RestClose else HalfClose, fate, served);
  }

  lemma OpenIs(v: View, ev: char, fate: Fate, served: bool)
    requires (v.cs == START && ev == 'O') || (v.cs == ACCEPTING && ev == 'P')
    ensures ExecSpec(v, ev, fate, served, 1) == After(v, ev, fate, served)
  {
    hide ExecSpec;
    if v.cs == START { Double(v, ev, Begin, OpenUp, fate, served); } else { Single(v, ev, KeyPrep, fate, served); }
  }

  lemma PassIs(v: View, fate: Fate, served: bool)
    requires v.cs == KEYCHECK || v.cs == TUNING || v.cs == REGISTERING
    ensures ExecSpec(v, '1', fate, served, 1) == After(v, '1', fate, served)
  {
    hide ExecSpec;
    if v.cs == KEYCHECK {
      Tunes(v, fate, served);
    } else if v.cs == TUNING {
      Confirms(v, fate, served, 1);
    } else {
      Single(v, '1', Established, fate, served);
    }
  }

  lemma SentIs(v: View, ev: char, fate: Fate, served: bool)
    requires v.cs == SENDING && (ev == 'e' || ev == '0')
    ensures ExecSpec(v, ev, fate, served, 1) == After(v, ev, fate, served)
  {
    hide ExecSpec;
    if ev == 'e' { Double(v, ev, Sent, ClearSend, fate, served); } else { Single(v, ev, ClearSend, fate, served); }
  }

  lemma ServiceIs(v: View, fate: Fate, served: bool)
    requires v.cs == DELIVERING
    ensures ExecSpec(v, 's', fate, served, 1) == After(v, 's', fate, served)
  {
    if v.recvMsg == Some(v.recvCount) {
      hide ExecSpec;
      Delivers(v, fate, served);
    } else {
      var acts, u := [MsgidCheck, Service, ClearRecv], v.(cs := IDLE);
      assert Chart(v.cs, 's') == Step(IDLE, acts);
      RunNext(u, acts, fate, served, 1);
      hide RunSpec;
    }
  }

  /** An action that leaves the connection as it is. */
  lemma QuietIs(v: View, ev: char, a: Action, target: nat, fate: Fate, served: bool)
    requires !IsDone(v) && Chart(v.cs, ev) == Step(target, [a])
    requires a.MsgReady? || a.HateApply? || a.HateChallenge? || a.HatePaid? || a.HateValid? || a.HateInvalid?
    ensures ExecSpec(v, ev, fate, served, 1) == v.(cs := target)
  {
    hide ExecSpec, Chart;
    Single(v, ev, a, fate, served);
  }

  lemma RecvIs(v: View, fate: Fate, served: bool)
    requires v.cs == IDLE
    ensures ExecSpec(v, 'R', fate, served, 1) == After(v, 'R', fate, served)
  {
    assert Chart(IDLE, 'R') == Step(DELIVERING, [RecvMsg]);
    hide ExecSpec, Chart;
    Single(v, 'R', RecvMsg, fate, served);
  }

  lemma IdleIs(v: View, ev: char, fate: Fate, served: bool)
    requires v.cs == IDLE && ev in "QH"
    ensures ExecSpec(v, ev, fate, served, 1) == After(v, ev, fate, served)
  {
    hide ExecSpec;
    if ev == 'Q' {
      QuietIs(v, ev, MsgReady, SENDING, fate, served);
    } else {
      QuietIs(v, ev, HateApply, HATED, fate, served);
    }
  }

  lemma HateIs(v: View, ev: char, fate: Fate, served: bool)
    requires HATED <= v.cs <= VALIDATING && Expects(v.cs, ev)
    ensures ExecSpec(v, ev, fate, served, 1) == After(v, ev, fate, served)
  {
    hide ExecSpec;
    match ev
    case 'h' => QuietIs(v, ev, HateChallenge, AWAITING, fate, served);
    case 'b' => QuietIs(v, ev, HatePaid, VALIDATING, fate, served);
    case 'V' => QuietIs(v, ev, HateValid, IDLE, fate, served);
    case _ => QuietIs(v, ev, HateInvalid, IDLE, fate, served);
  }

  lemma ExecIs(v: View, ev: char, fate: Fate, served: bool)
    ensures ExecSpec(v, ev, fate, served, 1) == After(v, ev, fate, served)
  {
    if IsDone(v) { return; }
    hide ExecSpec, After;
    if v.cs == ABORTING || !Expects(v.cs, ev) {
      ShutIs(v, ev, fate, served);
    } else if ev == 'r' || ev == 'w' {
      CloseIs(v, ev, fate, served);
    } else if v.cs <= ACCEPTING {
      OpenIs(v, ev, fate, served);
    } else if v.cs < IDLE {
      PassIs(v, fate, served);
    } else if v.cs == IDLE && ev == 'R' {
      RecvIs(v, fate, served);
    } else if v.cs == IDLE {
      IdleIs(v, ev, fate, served);
    } else if v.cs == SENDING {
      SentIs(v, ev, fate, served);
    } else if v.cs == DELIVERING {
      ServiceIs(v, fate, served);
    } else {
      HateIs(v, ev, fate, served);
    }
  }

  // ---------------------------------------------------------------- when a connection ends

  /** The first close of an open connection parts with its client and its member, and leaves it to the second. */
  lemma FirstClose(v: View, ev: char, fate: Fate, served: bool)
    requires ACCEPTING <= v.cs <= IDLE && (ev == 'r' || ev == 'w')
    ensures var w := ExecSpec(v, ev, fate, served, 1);
      w == v.(cs := CLOSING, client := false, joined := false) && !IsDone(w)
  {
    hide ExecSpec;
    ExecIs(v, ev, fate, served);
  }

  /** An event ends a connection exactly if it is closing, or does not expect the event. */
  lemma EndsWith(v: View, ev: char, fate: Fate, served: bool)
    requires !IsDone(v)
    ensures IsDone(ExecSpec(v, ev, fate, served, 1)) <==> v.cs == CLOSING || !Expects(v.cs, ev)
  {
    hide ExecSpec, Goes, Expects;
    ExecIs(v, ev, fate, served);
  }

  /**
   The steps that end an accepted connection: an event it does not expect, or any at all while it is closing.
   A round of the reading task brings it into that when it finds the connection neither idle nor aborting, or
   aborting with a message still undone; a round of the sending task when it is neither idle nor aborting.
   */
  predicate Ending(step: HubStep, stage: nat, v: View) {
    match step
    case Accept(_) => false
    case Opens(_, _) => stage < 3 && !Expects(v.cs, Opener(stage))
    case Happens(_, ev, _) => stage == 3 && (v.cs == CLOSING || !Expects(v.cs, ev))
    case Reads(_, arrived, _) =>
      stage == 3 && v.client && arrived && v.cs != IDLE && (v.cs != ABORTING || v.recvMsg.Some?)
    case Sends(_, queued, _, _) => stage == 3 && queued && v.cs != IDLE && v.cs != ABORTING
  }

  lemma ReadEnds(v: View, arrived: bool, fate: Fate, served: bool)
    requires Stage(3, v) && Sound(v) && !IsDone(v)
    ensures IsDone(IncomingSpec(v, arrived, fate, served).0) <==>
      v.client && arrived && v.cs != IDLE && (v.cs != ABORTING || v.recvMsg.Some?)
  {
    hide ExecSpec;
    var u := v.(recvPending := true);
    ExecIs(u, 'R', fate, served);
    ExecIs(ExecSpec(u, 'R', fate, served, 1), 's', fate, served);
  }

  lemma SendEnds(v: View, queued: bool, delivered: bool, fate: Fate)
    requires Stage(3, v) && Sound(v) && !IsDone(v) && v.cs != CLOSING && !(queued && v.cs == ABORTING)
    ensures IsDone(OutgoingSpec(v, queued, delivered, fate).0) <==> queued && v.cs != IDLE
  {
    hide ExecSpec;
    var u := v.(sendMsg := true);
    ExecIs(u, 'Q', fate, false);
    var w := ExecSpec(u, 'Q', fate, false, 1);
    ExecIs(Sending(w), 'e', fate, false);
    ExecIs(Sending(w), '0', fate, false);
  }

  lemma StepEnds(step: HubStep, v: View, comes: Servicing)
    requires Stage(3, v) && Sound(v) && !IsDone(v) && !step.Accept? && !step.Opens? && !Stops(step, v, comes)
    ensures IsDone(ActedSpec(step, v, comes)) <==> Ending(step, 3, v)
  {
    hide ExecSpec, OutgoingSpec, IncomingSpec;
    match step
    case Happens(_, ev, fate) => EndsWith(v, ev, fate, comes == Served);
    case Reads(_, arrived, fate) => ReadEnds(v, arrived, fate, comes == Served);
    case Sends(_, queued, delivered, fate) => SendEnds(v, queued, delivered, fate);
  }

  // ---------------------------------------------------------------- over a run

  /** What a run of the hub yields: a state before every step and behind the last, none of which halts. */
  ghost predicate IsHubRun(steps: seq<HubStep>, instants: seq<Instant>) {
    && |instants| == |steps| + 1 && (forall i :: 0 <= i <= |steps| ==> Matched(instants[i]))
    && forall i :: 0 <= i < |steps| ==> Moves(instants[i], steps[i], instants[i + 1]) && !Stopped(instants[i], steps[i])
  }

  /** A step that ends the connection `d`. */
  ghost predicate EndsIt(s: Instant, step: HubStep, d: Connection) {
    && Actor(s.scene, step) == d && d in s.scene.views && d in s.scene.stage
    && Ending(step, s.scene.stage[d], s.scene.views[d])
  }

  /** In use: known to the hub and not done. */
  ghost predicate InUse(s: Instant, d: Connection) { d in s.scene.views && !IsDone(s.scene.views[d]) }

  /** A step ends a connection in use exactly if it is one that ends it, and hands out none that is in use. */
  lemma InUseNext(s: Instant, step: HubStep, t: Instant, d: Connection)
    requires Matched(s) && Moves(s, step, t) && !Stopped(s, step) && InUse(s, d)
    ensures d in t.scene.views && (InUse(t, d) <==> !EndsIt(s, step, d))
    ensures step.Accept? ==> t.scene.conns != [] && t.scene.conns[|t.scene.conns| - 1] != d
  {
    hide ExecSpec, ActedSpec, BoardAfter, ComesOn, Posts, Stops, Ending;
    var c := Actor(s.scene, step);
    if c == d {
      assert Stage(s.scene.stage[d], s.scene.views[d]) && Sound(s.scene.views[d]);
      ActorEnds(s, step, d);
    }
  }

  lemma ActorEnds(s: Instant, step: HubStep, d: Connection)
    requires Actor(s.scene, step) == d && InUse(s, d) && !Stopped(s, step) && s.scene.stage[d] <= 3
    requires Stage(s.scene.stage[d], s.scene.views[d]) && Sound(s.scene.views[d])
    ensures var stage, v, comes := s.scene.stage[d], s.scene.views[d], ComesOn(s.board, step.fate);
      if step.Opens? && stage < 3 then
        IsDone(ExecSpec(v, Opener(stage), step.fate, comes == Served, 1)) <==> Ending(step, stage, v)
      else if step.Opens? || stage != 3 then !Ending(step, stage, v)
      else IsDone(ActedSpec(step, v, comes)) <==> Ending(step, stage, v)
  {
    hide ExecSpec, ActedSpec, ComesOn, Stops;
    var stage, v, comes := s.scene.stage[d], s.scene.views[d], ComesOn(s.board, step.fate);
    if step.Opens? && stage < 3 {
      EndsWith(v, Opener(stage), step.fate, comes == Served);
    } else if !step.Opens? && stage == 3 {
      StepEnds(step, v, comes);
    }
  }

  /**
   Over every run: a connection in use stays in use, off the free list, and is not handed out to another
   client, until a step ends it.
   */
  lemma {:induction false} StaysInUse(steps: seq<HubStep>, instants: seq<Instant>, d: Connection, i: nat, j: nat)
    requires IsHubRun(steps, instants) && i <= j <= |steps| && InUse(instants[i], d)
    requires forall k :: i <= k < j ==> !EndsIt(instants[k], steps[k], d)
    ensures InUse(instants[j], d) && d !in instants[j].free
    ensures forall k :: i <= k < j && steps[k].Accept? ==>
      var conns := instants[k + 1].scene.conns; conns != [] && conns[|conns| - 1] != d
    decreases j - i
  {
    hide Moves, Stopped, EndsIt, Matched, InUse;
    assert Matched(instants[j]);
    if i == j {
    } else {
      assert Matched(instants[j - 1]);
      StaysInUse(steps, instants, d, i, j - 1);
      InUseNext(instants[j - 1], steps[j - 1], instants[j], d);
    }
    FreeMeans(instants[j], d);
  }

  lemma FreeMeans(s: Instant, d: Connection)
    requires Matched(s)
    ensures d in s.free <==> d in s.scene.views && !InUse(s, d)
  {
    hide Opened, Sound;
  }

  /** And then it is over at once: the connection is on the free list. */
  lemma FreedWhenEnded(steps: seq<HubStep>, instants: seq<Instant>, d: Connection, k: nat)
    requires IsHubRun(steps, instants) && k < |steps| && InUse(instants[k], d) && EndsIt(instants[k], steps[k], d)
    ensures d in instants[k + 1].free
  {
    hide Moves, Stopped, EndsIt, Matched;
    assert Matched(instants[k]) && Matched(instants[k + 1]);
    InUseNext(instants[k], steps[k], instants[k + 1], d);
    FreeMeans(instants[k + 1], d);
  }

  /** Every run of a hub is one of these, as far as it gets. */
  method Observe(hub: Hub, steps: seq<HubStep>) returns (n: nat, dead: bool, ghost instants: seq<Instant>)
    requires hub.Valid() && forall i :: 0 <= i < |steps| ==> Routable(steps[i].fate)
    modifies hub, hub.all, hub.table, hub.table.paths.Values, hub.table.known
    ensures n <= |steps| && (dead <==> n < |steps|) && IsHubRun(steps[..n], instants)
    ensures instants[0] == old(hub.Now([], map[])) && (dead ==> Stopped(instants[n], steps[n]))
  {
    hide Hub.Valid, Hub.Now, Matched, Moves, Stopped, Routable;
    n, dead, instants := hub.Run(steps);
  }
}
