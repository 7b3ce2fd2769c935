/**
 Two peers after the handshake, talking in both directions at once: any interleaving of Peer_send and
 Peer_recv on their states, with the bytes of the frames in flight in between, is a run of the channel.
 */
module Conversation {
  import opened Bytes
  import opened Stackish
  import opened Channel
  import opened Handshake
  import Frames

  function ItemOf(m: Letter): Item
    requires Writable(m)
  {
    Item(Canonical(m.0), Canonical(m.1))
  }

  /** The bytes of the frame that carries a packet. */
  function FrameOf(p: Packet): Text
    requires FloatFree(Envelope(p.cipher, p.tag))
  {
    p.header + Canonical(Envelope(p.cipher, p.tag))
  }

  /** The line from `x` to `y` has the keys and counters the two states have. */
  ghost predicate Ends(x: CryptState, y: CryptState, l: Line)
    reads x`them, y`me
  {
    && l.sendKey == x.them.skey && l.sendNonce == x.them.nonce
    && l.recvKey == y.me.skey && l.recvNonce == y.me.nonce
  }

  /** What was sent on the line are the letters `sent`, and the frames in flight are those of its packets. */
  ghost predicate Carries(l: Line, frames: seq<Text>, sent: seq<Letter>) {
    && |l.sent| == |sent| && |l.wire| == |frames|
    && (forall k :: 0 <= k < |sent| ==> Writable(sent[k]) && l.sent[k] == ItemOf(sent[k]))
    && (forall k :: 0 <= k < |frames| ==>
          && FloatFree(Envelope(l.wire[k].cipher, l.wire[k].tag))
          && frames[k] == FrameOf(l.wire[k]) && |frames[k]| < Frames.TWO16)
  }

  lemma EnvelopeIsPacket(ccm: Ccm, key: Text, n: Nonce, m: Letter)
    requires Writable(m)
    ensures var p := Seal(ccm, key, n, Canonical(m.0), Canonical(m.1));
      && FloatFree(Envelope(p.cipher, p.tag)) && p.header == Canonical(m.0)
      && Sealed(ccm, key, n, Canonical(m.0), m.1) == Envelope(p.cipher, p.tag)
  {
    var p := Seal(ccm, key, n, Canonical(m.0), Canonical(m.1));
    EnvelopePrints(p.cipher, p.tag);
    hide Canonical, Envelope;
  }

  /** Peer_send is Channel.Send. */
  method SendFrame(x: CryptState, m: Letter, frames: seq<Text>,
                   ghost y: CryptState, ghost l: Line, ghost sent: seq<Letter>)
    returns (after: seq<Text>, oversize: bool)
    requires x != y && Writable(m) && Ends(x, y, l) && Carries(l, frames, sent)
    modifies x`them
    ensures Ends(x, y, Send(x.suite.ccm, l, ItemOf(m)))
    ensures oversize <==> Long(LetterFrame(x.suite.ccm, l.sendKey, l.sendNonce, m))
    ensures after == frames + [LetterFrame(x.suite.ccm, l.sendKey, l.sendNonce, m)]
    ensures !oversize ==> Carries(Send(x.suite.ccm, l, ItemOf(m)), after, sent + [m])
    ensures x.them.skey == old(x.them.skey)
  {
    hide Canonical, Document, Sealed, Envelope, Inc, FloatFree;
    EnvelopeIsPacket(x.suite.ccm, x.them.skey, x.them.nonce, m);
    var hbuf, msg := x.PeerSend(m.0, m.1);
    var data := hbuf + Canonical(msg);
    after, oversize := frames + [data], |data| >= Frames.TWO16;
  }

  /** FrameSource_recv on a frame with these data. */
  function Arrived(data: Text): Option<Frames.Received> {
    match Frames.TakeFrame(Frames.Wire(data))
    case Taken(d, _) => Some(Frames.Unpack(d))
    case _ => None
  }

  /** The oldest frame in flight is the oldest letter not yet received, sealed for the receiver's turn. */
  lemma OldestInFlight(ccm: Ccm, l: Line, frames: seq<Text>, sent: seq<Letter>)
    requires Skewed(ccm, l, 0) && Carries(l, frames, sent) && frames != []
    ensures |l.got| < |sent| && Writable(sent[|l.got|])
    ensures var (h, payload) := sent[|l.got|];
      var e := Sealed(ccm, l.recvKey, l.recvNonce, Canonical(h), payload);
      FloatFree(e) && frames[0] == Canonical(h) + Canonical(e) && Fits(Canonical(h), e)
  {
    hide Canonical, Document, Sealed, Envelope, Inc, FloatFree, Advance;
    var m := sent[|l.got|];
    AdvanceNone(l.recvNonce);
    assert l.wire[0] == Seal(ccm, l.recvKey, Advance(l.recvNonce, 0 + 0),
                             l.sent[|l.got| + 0].header, l.sent[|l.got| + 0].plain);
    EnvelopeIsPacket(ccm, l.recvKey, l.recvNonce, m);
  }

  /** So it arrives as that letter's header and an envelope that opens to its payload. */
  lemma FrameArrives(ccm: Ccm, key: Text, n: Nonce, m: Letter)
    requires Correct(ccm) && Writable(m)
    ensures var hbuf := Canonical(m.0);
      var e := Sealed(ccm, key, n, hbuf, m.1);
      && FloatFree(e) && e.Node? && TwoBlobs(e) && e.name == Some(ENV_MSG)
      && Unsealed(ccm, key, n, hbuf, Sealed(ccm, key, n, hbuf, m.1)) == Some(m.1)
      && (Fits(hbuf, e) ==> Arrived(hbuf + Canonical(e)) == Some(Frames.Received(m.0, hbuf, e, false)))
  {
    hide Sealed, Unsealed, Frames.Unpack, Frames.TakeFrame, Frames.Wire, Canonical, Document, TwoBlobs, FloatFree;
    UnsealedUndoesSealed(ccm, key, n, Canonical(m.0), m.1);
    SealedArrives(ccm, key, n, m.0, m.1);
    SealedReads(ccm, key, n, Canonical(m.0), m.1);
  }

  /** Peer_recv is Channel.Recv. */
  method RecvFrame(y: CryptState, frames: seq<Text>, ghost x: CryptState, ghost l: Line, ghost sent: seq<Letter>)
    returns (payload: Tree, after: seq<Text>)
    requires x != y && frames != [] && Ends(x, y, l) && Carries(l, frames, sent)
    requires Correct(y.suite.ccm) && Skewed(y.suite.ccm, l, 0)
    modifies y`me
    ensures Ends(x, y, Recv(y.suite.ccm, l)) && Carries(Recv(y.suite.ccm, l), after, sent)
    ensures |l.got| < |sent| && payload == sent[|l.got|].1 && y.me.skey == old(y.me.skey)
  {
    hide Canonical, Document, Sealed, Unsealed, Arrived, TwoBlobs, Inc, FloatFree, Skewed, Correct;
    OldestInFlight(y.suite.ccm, l, frames, sent);
    FrameArrives(y.suite.ccm, l.recvKey, l.recvNonce, sent[|l.got|]);
    var frame := Arrived(frames[0]).value;
    var inside := y.PeerRecv(frame);
    payload, after := inside.value, frames[1..];
    CarriesOn(y.suite.ccm, l, frames, sent);
  }

  lemma CarriesOn(ccm: Ccm, l: Line, frames: seq<Text>, sent: seq<Letter>)
    requires Carries(l, frames, sent) && frames != []
    ensures Carries(Recv(ccm, l), frames[1..], sent)
  {
    hide Canonical, Document, FloatFree, Envelope;
    var r := Recv(ccm, l);
    forall k | 0 <= k < |frames[1..]| ensures r.wire[k] == l.wire[k + 1] && frames[1..][k] == frames[k + 1] {}
  }

  // ---------------------------------------------------------------- both directions

  datatype PeerStep = SendToB(m: Letter) | SendToA(m: Letter) | RecvByB | RecvByA

  predicate Sendable(s: PeerStep) {
    match s
    case SendToB(m) => Writable(m)
    case SendToA(m) => Writable(m)
    case _ => true
  }

  lemma {:induction false} RunOn(ccm: Ccm, w: Wires, steps: seq<Step>, s: Step)
    ensures Channel.Run(ccm, w, steps + [s]) == Channel.Do(ccm, Channel.Run(ccm, w, steps), s)
    decreases |steps|
  {
    if steps == [] {
      assert ([] + [s])[1..] == [];
    } else {
      RunOn(ccm, Channel.Do(ccm, w, steps[0]), steps[1..], s);
      assert (steps + [s])[1..] == steps[1..] + [s];
    }
  }

  function ChannelStep(s: PeerStep): Step
    requires Sendable(s)
  {
    match s
    case SendToB(m) => SendAB(ItemOf(m))
    case SendToA(m) => SendBA(ItemOf(m))
    case RecvByB => RecvAtB
    case RecvByA => RecvAtA
  }

  predicate AllSendable(steps: seq<PeerStep>) { forall i :: 0 <= i < |steps| ==> Sendable(steps[i]) }

  function ChannelSteps(steps: seq<PeerStep>): seq<Step>
    requires AllSendable(steps)
  {
    seq(|steps|, i requires 0 <= i < |steps| => ChannelStep(steps[i]))
  }

  /** The frames in flight in either direction, and what each side has sent and received. */
  datatype Traffic = Traffic(
    ab: seq<Text>, ba: seq<Text>, fromA: seq<Letter>, fromB: seq<Letter>, atA: seq<Tree>, atB: seq<Tree>)

  const SILENCE := Traffic([], [], [], [], [], [])

  /** Both directions as the two states and the frames in flight have them. */
  ghost predicate Holds(a: CryptState, b: CryptState, w: Wires, t: Traffic)
    reads a`me, a`them, b`me, b`them
  {
    && a != b && a.suite == b.suite && Correct(a.suite.ccm) && InStep(a.suite.ccm, w)
    && Ends(a, b, w.ab) && Ends(b, a, w.ba) && Carries(w.ab, t.ab, t.fromA) && Carries(w.ba, t.ba, t.fromB)
    && InTurn(w.ab, t.fromA, t.atB) && InTurn(w.ba, t.fromB, t.atA)
  }

  /** What has arrived is what was sent, in order; everything else is still in flight. */
  ghost predicate InTurn(l: Line, sent: seq<Letter>, got: seq<Tree>) {
    |got| == |l.got| <= |sent| && forall k :: 0 <= k < |got| ==> got[k] == sent[k].1
  }

  /** A step that does not get through: a letter whose frame, as its direction stands, is too long. */
  predicate Blocked(ccm: Ccm, w: Wires, s: PeerStep)
    requires Sendable(s)
  {
    match s
    case SendToB(m) => Long(LetterFrame(ccm, w.ab.sendKey, w.ab.sendNonce, m))
    case SendToA(m) => Long(LetterFrame(ccm, w.ba.sendKey, w.ba.sendNonce, m))
    case _ => false
  }

  /** One step on the two states: a frame is written, or the oldest in flight is taken off. */
  method TalkStep(a: CryptState, b: CryptState, s: PeerStep, t: Traffic, ghost w: Wires)
    returns (next: Traffic, oversize: bool)
    requires Holds(a, b, w, t) && Sendable(s)
    modifies a`me, a`them, b`me, b`them
    ensures !oversize ==> Holds(a, b, Channel.Do(a.suite.ccm, w, ChannelStep(s)), next)
    ensures oversize <==> Blocked(a.suite.ccm, w, s)
    ensures next.fromA == t.fromA + (if s.SendToB? then [s.m] else [])
    ensures next.fromB == t.fromB + (if s.SendToA? then [s.m] else [])
  {
    hide Carries, Ends, Skewed, Delivered, Correct, Writable, ItemOf, LetterFrame;
    DoKeepsStep(a.suite.ccm, w, ChannelStep(s));
    next, oversize := t, false;
    match s {
      case SendToB(m) =>
        var after;
        after, oversize := SendFrame(a, m, t.ab, b, w.ab, t.fromA);
        next := t.(ab := after, fromA := t.fromA + [m]);
      case SendToA(m) =>
        var after;
        after, oversize := SendFrame(b, m, t.ba, a, w.ba, t.fromB);
        next := t.(ba := after, fromB := t.fromB + [m]);
      case RecvByB =>
        SameLength(w.ab, t.ab, t.fromA);
        if t.ab != [] {
          var payload, after := RecvFrame(b, t.ab, a, w.ab, t.fromA);
          next := t.(ab := after, atB := t.atB + [payload]);
        }
      case RecvByA =>
        SameLength(w.ba, t.ba, t.fromB);
        if t.ba != [] {
          var payload, after := RecvFrame(a, t.ba, b, w.ba, t.fromB);
          next := t.(ba := after, atA := t.atA + [payload]);
        }
    }
  }

  lemma SameLength(l: Line, frames: seq<Text>, sent: seq<Letter>)
    requires Carries(l, frames, sent)
    ensures |l.wire| == |frames|
  {}

  /** What one side sends in a schedule. */
  function Letters(steps: seq<PeerStep>, byA: bool): seq<Letter> {
    if steps == [] then [] else
      var last := steps[|steps| - 1];
      Letters(steps[..|steps| - 1], byA) + if (if byA then last.SendToB? else last.SendToA?) then [last.m] else []
  }

  /** The two directions as they are right after the handshake. */
  ghost function Opening(a: CryptState, b: CryptState): Wires
    reads a`me, a`them, b`me, b`them
  {
    Wires(Line(a.them.skey, a.them.nonce, b.me.skey, b.me.nonce, [], [], []),
          Line(b.them.skey, b.them.nonce, a.me.skey, a.me.nonce, [], [], []))
  }

  lemma OpeningHolds(a: CryptState, b: CryptState)
    requires a != b && Agree(a, b) && Agree(b, a) && Correct(a.suite.ccm)
    ensures Holds(a, b, Opening(a, b), SILENCE)
  {
    hide Correct;
    FreshIsInStep(a.suite.ccm, a.them.skey, a.them.nonce, b.them.skey, b.them.nonce);
  }

  /** The directions before step `k` of a schedule. */
  function Before(ccm: Ccm, w: Wires, steps: seq<PeerStep>, k: nat): Wires
    requires AllSendable(steps) && k <= |steps|
  {
    Channel.Run(ccm, w, ChannelSteps(steps[..k]))
  }

  lemma BeforeNext(ccm: Ccm, w: Wires, steps: seq<PeerStep>, n: nat)
    requires AllSendable(steps) && n < |steps|
    ensures Before(ccm, w, steps, n + 1) == Channel.Do(ccm, Before(ccm, w, steps, n), ChannelStep(steps[n]))
  {
    hide Channel.Run, Channel.Do, ChannelStep, Sendable;
    assert ChannelSteps(steps[..n + 1]) == ChannelSteps(steps[..n]) + [ChannelStep(steps[n])];
    RunOn(ccm, w, ChannelSteps(steps[..n]), ChannelStep(steps[n]));
  }

  lemma BeforeFirst(ccm: Ccm, w: Wires, steps: seq<PeerStep>)
    requires AllSendable(steps)
    ensures Before(ccm, w, steps, 0) == w
  {}

  lemma NoLetters(steps: seq<PeerStep>)
    ensures Letters(steps[..0], true) == [] && Letters(steps[..0], false) == []
  {}

  lemma LettersNext(steps: seq<PeerStep>, n: nat)
    requires n < |steps|
    ensures Letters(steps[..n + 1], true) ==
      Letters(steps[..n], true) + (if steps[n].SendToB? then [steps[n].m] else [])
    ensures Letters(steps[..n + 1], false) ==
      Letters(steps[..n], false) + (if steps[n].SendToA? then [steps[n].m] else [])
  {
    assert steps[..n + 1][..n] == steps[..n];
  }

  /** `n` is the first step of the schedule that does not get through, or its end. */
  predicate GetsTo(ccm: Ccm, w: Wires, steps: seq<PeerStep>, n: nat)
    requires AllSendable(steps) && n <= |steps|
  {
    forall k :: 0 <= k <= n && k < |steps| ==> (Blocked(ccm, Before(ccm, w, steps, k), steps[k]) <==> k == n)
  }

  /** A schedule has got through its first `n` steps. */
  ghost predicate Reach(ccm: Ccm, w0: Wires, steps: seq<PeerStep>, n: nat, w: Wires, t: Traffic)
    requires AllSendable(steps) && n <= |steps|
  {
    && w == Before(ccm, w0, steps, n)
    && (forall k :: 0 <= k < n ==> !Blocked(ccm, Before(ccm, w0, steps, k), steps[k]))
    && t.fromA == Letters(steps[..n], true) && t.fromB == Letters(steps[..n], false)
  }

  lemma ReachFirst(ccm: Ccm, w0: Wires, steps: seq<PeerStep>)
    requires AllSendable(steps)
    ensures Reach(ccm, w0, steps, 0, w0, SILENCE)
  {
    BeforeFirst(ccm, w0, steps);
    NoLetters(steps);
  }

  lemma ReachMeans(ccm: Ccm, w0: Wires, steps: seq<PeerStep>, n: nat, w: Wires, t: Traffic)
    requires AllSendable(steps) && n <= |steps| && Reach(ccm, w0, steps, n, w, t)
    ensures w == Before(ccm, w0, steps, n)
    ensures t.fromA == Letters(steps[..n], true) && t.fromB == Letters(steps[..n], false)
    ensures n < |steps| ==> Sendable(steps[n])
    ensures n == |steps| || Blocked(ccm, w, steps[n]) ==> GetsTo(ccm, w0, steps, n)
  {
    hide Before, Blocked, Letters;
  }

  lemma ReachNext(ccm: Ccm, w0: Wires, steps: seq<PeerStep>, n: nat, w: Wires, t: Traffic, next: Traffic)
    requires AllSendable(steps) && n < |steps| && Reach(ccm, w0, steps, n, w, t) && !Blocked(ccm, w, steps[n])
    requires next.fromA == t.fromA + (if steps[n].SendToB? then [steps[n].m] else [])
    requires next.fromB == t.fromB + (if steps[n].SendToA? then [steps[n].m] else [])
    ensures Reach(ccm, w0, steps, n + 1, Channel.Do(ccm, w, ChannelStep(steps[n])), next)
  {
    hide Before, Blocked, Letters, Channel.Do, ChannelStep;
    BeforeNext(ccm, w0, steps, n);
    LettersNext(steps, n);
  }

  /**
   Any interleaving of sends and receives in both directions, on the two states and through the bytes of
   the frames. The states and the frames in flight are at every moment those of the channel's run on the
   same schedule; each side has received a prefix of what the other has sent, payload by payload, and the
   rest is in flight. The schedule stops exactly at the first step whose frame is too long for its
   length bytes.
   */
  method Talk(a: CryptState, b: CryptState, steps: seq<PeerStep>)
    returns (t: Traffic, n: nat, oversize: bool, ghost w: Wires)
    requires a != b && Agree(a, b) && Agree(b, a) && Correct(a.suite.ccm) && AllSendable(steps)
    modifies a`me, a`them, b`me, b`them
    ensures n <= |steps| && (oversize <==> n < |steps|)
    ensures w == Before(a.suite.ccm, old(Opening(a, b)), steps, n) && InStep(a.suite.ccm, w)
    ensures GetsTo(a.suite.ccm, old(Opening(a, b)), steps, n)
    ensures Carries(w.ab, t.ab, t.fromA) && Carries(w.ba, t.ba, t.fromB) && (!oversize ==> Holds(a, b, w, t))
    ensures t.fromA == Letters(steps[..n], true) && t.fromB == Letters(steps[..n], false)
    ensures InTurn(w.ab, t.fromA, t.atB) && |t.atB| + |t.ab| == |t.fromA|
    ensures InTurn(w.ba, t.fromB, t.atA) && |t.atA| + |t.ba| == |t.fromB|
  {
    ghost var w0 := Opening(a, b);
    OpeningHolds(a, b);
    ReachFirst(a.suite.ccm, w0, steps);
    hide Holds, InStep, InTurn, Correct, AllSendable, Sendable, ChannelStep, Channel.Do;
    hide Blocked, GetsTo, Before, Letters, Carries;
    hide Reach, Opening;
    t, n, oversize, w := SILENCE, 0, false, w0;
    while n < |steps|
      invariant n <= |steps| && !oversize && Holds(a, b, w, t) && Reach(a.suite.ccm, w0, steps, n, w, t)
    {
      HoldsMeans(a, b, w, t);
      ReachMeans(a.suite.ccm, w0, steps, n, w, t);
      var next;
      next, oversize := TalkStep(a, b, steps[n], t, w);
      if oversize { return; }
      ReachNext(a.suite.ccm, w0, steps, n, w, t, next);
      t, w, n := next, Channel.Do(a.suite.ccm, w, ChannelStep(steps[n])), n + 1;
    }
    HoldsMeans(a, b, w, t);
    ReachMeans(a.suite.ccm, w0, steps, n, w, t);
  }

  /** The directions the handshake leaves: session keys crosswise, both nonces used once. */
  function Agreed(r: Party, i: Party, ni: Nonce, nr: Nonce): Wires {
    Wires(Line(r.session, Inc(nr), r.session, Inc(nr), [], [], []),
          Line(i.session, Inc(ni), i.session, Inc(ni), [], [], []))
  }

  /**
   The handshake and then any conversation. The handshake ends as its honest frames and the two
   confirmations say; once it is established, the conversation is the channel's run from the agreed keys
   and counters, and gets exactly to its first frame that is too long.
   */
  method Meet(r: CryptState, i: CryptState, n0: Nonce, ni: Nonce, nr: Nonce,
              rConfirms: Text -> bool, iConfirms: Text -> bool, steps: seq<PeerStep>)
    returns (out: Outcome, frames: seq<Text>, t: Traffic, n: nat, ghost w: Wires)
    requires r != i && r.suite == i.suite && Works(r.suite) && Usable(r.me) && Usable(i.me)
    requires |r.suite.pub(i.me.key)| < TWO64 && AllSendable(steps)
    modifies r, i
    ensures var fs := HonestFrames(r.suite, old(r.me), old(i.me), n0, ni, nr);
      var (end, k) := HonestOutcome(fs, iConfirms(r.suite.pub(old(r.me.key))), rConfirms(r.suite.pub(old(i.me.key))));
      out == end && frames == fs[..k]
    ensures n <= |steps| && (out == Established && n == |steps| ==> Holds(i, r, w, t))
    ensures out == Established ==>
      var w0 := Agreed(old(r.me), old(i.me), ni, nr);
      && w == Before(r.suite.ccm, w0, steps, n) && InStep(r.suite.ccm, w) && GetsTo(r.suite.ccm, w0, steps, n)
      && t.fromA == Letters(steps[..n], true) && t.fromB == Letters(steps[..n], false)
      && Carries(w.ab, t.ab, t.fromA) && Carries(w.ba, t.ba, t.fromB)
      && InTurn(w.ab, t.fromA, t.atB) && |t.atB| + |t.ab| == |t.fromA|
      && InTurn(w.ba, t.fromB, t.atA) && |t.atA| + |t.ba| == |t.fromB|
  {
    WorksMeans(r.suite, [], []);
    hide Works, Correct, InStep, Inc, Letters, Holds, AllSendable, Usable, HonestFrames, HonestOutcome;
    hide Before, GetsTo, Carries;
    t, n, w := SILENCE, 0, Opening(i, r);
    var matched;
    out, frames, matched := Establish(r, i, n0, ni, nr, rConfirms, iConfirms);
    if out == Established {
      var oversize;
      t, n, oversize, w := Talk(i, r, steps);
    }
  }

  lemma HoldsMeans(a: CryptState, b: CryptState, w: Wires, t: Traffic)
    requires Holds(a, b, w, t)
    ensures Carries(w.ab, t.ab, t.fromA) && Carries(w.ba, t.ba, t.fromB)
    ensures InStep(a.suite.ccm, w)
    ensures InTurn(w.ab, t.fromA, t.atB) && |t.atB| + |t.ab| == |t.fromA|
    ensures InTurn(w.ba, t.fromB, t.atA) && |t.atA| + |t.ba| == |t.fromB|
  {}
}
