/**
 The sealed channel after the handshake: two FIFO directions, each with a nonce counter at the
 sender and one at the receiver, over every interleaving of sends and receives.
 */
module Channel {
  import opened Bytes

  type word64 = n: nat | n < TWO64

  datatype Nonce = Nonce(left: word64, right: word64)

  /** CryptState_nonce_inc: both halves, each wrapping on its own. */
  function Inc(n: Nonce): Nonce { Nonce(Wrap(n.left + 1), Wrap(n.right + 1)) }

  function Wrap(n: nat): word64 { n % TWO64 }

  function Advance(n: Nonce, k: nat): Nonce { Nonce(Wrap(n.left + k), Wrap(n.right + k)) }

  lemma AdvanceInc(n: Nonce, k: nat)
    ensures Inc(Advance(n, k)) == Advance(n, k + 1) == Advance(Inc(n), k)
  {
    hide Wrap;
    WrapInc(n.left, k);
    WrapInc(n.right, k);
  }

  /** A counter behind `k` packets. */
  function Incs(n: Nonce, k: nat): Nonce { if k == 0 then n else Inc(Incs(n, k - 1)) }

  /** Both halves count every packet, modulo 2^64. */
  lemma {:induction false} BothHalvesCount(n: Nonce, k: nat)
    ensures Incs(n, k) == Advance(n, k)
    ensures Incs(n, k).left == (n.left + k) % 0x1_0000_0000_0000_0000
    ensures Incs(n, k).right == (n.right + k) % 0x1_0000_0000_0000_0000
  {
    if k == 0 {
    } else {
      BothHalvesCount(n, k - 1);
      AdvanceInc(n, k - 1);
      hide Inc;
    }
  }

  lemma Remainder(n: nat, q: nat, r: nat)
    requires n == TWO64 * q + r && r < TWO64
    ensures n % TWO64 == r
  {}

  lemma WrapAdd(a: nat, b: nat)
    ensures Wrap(Wrap(a) + b) == Wrap(a + b)
  {
    var q, r := a / TWO64, a % TWO64;
    var q', r' := (r + b) / TWO64, (r + b) % TWO64;
    assert a + b == TWO64 * (q + q') + r';
    Remainder(a + b, q + q', r');
  }

  lemma WrapInc(x: nat, k: nat)
    ensures Wrap(Wrap(x + k) + 1) == Wrap(x + (k + 1)) == Wrap(Wrap(x + 1) + k)
  {
    WrapAdd(x + k, 1);
    WrapAdd(x + 1, k);
    assert x + 1 + k == x + (k + 1) == x + k + 1;
  }

  /** A counter comes back to a value exactly after a multiple of 2^64 packets. */
  lemma NonceRepeats(n: Nonce, i: nat, j: nat)
    requires i <= j
    ensures Advance(n, i) == Advance(n, j) <==> (j - i) % TWO64 == 0
  {
    SameWrap(n.left + i, j - i);
    SameWrap(n.right + i, j - i);
  }

  lemma SameWrap(x: nat, d: nat)
    ensures x % TWO64 == (x + d) % TWO64 <==> d % TWO64 == 0
  {
    assert x + d == TWO64 * (x / TWO64 + d / TWO64) + (x % TWO64 + d % TWO64);
  }

  // ---------------------------------------------------------------- CCM

  /**
   ccm_memory in both directions: sealing gives a ciphertext and a tag, opening a plaintext and the tag it
   expects.
   */
  datatype Ccm = Ccm(seal: (Text, Nonce, Text, Text) -> (Text, Text), unseal: (Text, Nonce, Text, Text) -> (Text, Text))

  /** What was sealed opens under the same key, nonce and header, with the same tag. */
  ghost predicate Correct(ccm: Ccm) {
    forall k, n, h, p :: ccm.unseal(k, n, h, ccm.seal(k, n, h, p).0) == (p, ccm.seal(k, n, h, p).1)
  }

  /** The tag matches under no other key, nonce or header. */
  ghost predicate Authentic(ccm: Ccm) {
    forall k, n, h, p, k', n', h' ::
      ccm.unseal(k', n', h', ccm.seal(k, n, h, p).0).1 == ccm.seal(k, n, h, p).1 ==> k' == k && n' == n && h' == h
  }

  datatype Packet = Packet(header: Text, cipher: Text, tag: Text)

  function Seal(ccm: Ccm, key: Text, n: Nonce, header: Text, plain: Text): Packet {
    var (c, t) := ccm.seal(key, n, header, plain);
    Packet(header, c, t)
  }

  /** CryptState_decrypt_packet: the plaintext, if the expected tag is the packet's. */
  function Open(ccm: Ccm, key: Text, n: Nonce, pkt: Packet): Option<Text> {
    var (p, t) := ccm.unseal(key, n, pkt.header, pkt.cipher);
    if t == pkt.tag then Some(p) else None
  }

  // ---------------------------------------------------------------- one direction

  datatype Item = Item(header: Text, plain: Text)

  /**
   A direction: the sender's `them` key and counter, the receiver's `me` key and counter, the
   packets in flight, and the history of what was sent and what the receiver made of it.
   */
  datatype Line = Line(
    sendKey: Text, sendNonce: Nonce, recvKey: Text, recvNonce: Nonce,
    wire: seq<Packet>, sent: seq<Item>, got: seq<Option<Item>>)

  /** Peer_send: seal under the counter, advance it, put the packet on the wire. */
  function Send(ccm: Ccm, l: Line, m: Item): Line {
    l.(wire := l.wire + [Seal(ccm, l.sendKey, l.sendNonce, m.header, m.plain)],
       sendNonce := Inc(l.sendNonce), sent := l.sent + [m])
  }

  /** Peer_recv: open the oldest packet; the counter advances whether the tag matches or not. */
  function Recv(ccm: Ccm, l: Line): Line {
    if l.wire == [] then l else
      var pkt := l.wire[0];
      var r := match Open(ccm, l.recvKey, l.recvNonce, pkt) case Some(p) => Some(Item(pkt.header, p)) case None => None;
      l.(wire := l.wire[1..], recvNonce := Inc(l.recvNonce), got := l.got + [r])
  }

  /** Sender and receiver are `skew` packets apart beyond what is in flight. */
  ghost predicate Skewed(ccm: Ccm, l: Line, skew: nat) {
    && l.sendKey == l.recvKey
    && |l.got| + |l.wire| == |l.sent|
    && l.sendNonce == Advance(l.recvNonce, skew + |l.wire|)
    && forall k :: 0 <= k < |l.wire| ==>
         var m := l.sent[|l.got| + k];
         l.wire[k] == Seal(ccm, l.recvKey, Advance(l.recvNonce, skew + k), m.header, m.plain)
  }

  lemma SendKeepsSkew(ccm: Ccm, l: Line, skew: nat, m: Item)
    requires Skewed(ccm, l, skew)
    ensures Skewed(ccm, Send(ccm, l, m), skew)
  {
    hide Inc, Advance, Seal;
    AdvanceInc(l.recvNonce, skew + |l.wire|);
  }

  lemma RecvKeepsSkew(ccm: Ccm, l: Line, skew: nat)
    requires Skewed(ccm, l, skew)
    ensures Skewed(ccm, Recv(ccm, l), skew)
  {
    hide Inc, Advance, Seal;
    if l.wire != [] {
      var r := Recv(ccm, l);
      AdvanceInc(l.recvNonce, skew + |r.wire|);
      forall k | 0 <= k < |r.wire| ensures
        var m := r.sent[|r.got| + k];
        r.wire[k] == Seal(ccm, r.recvKey, Advance(r.recvNonce, skew + k), m.header, m.plain)
      {
        AdvanceInc(l.recvNonce, skew + k);
        assert r.wire[k] == l.wire[k + 1];
      }
    }
  }

  /** Everything received so far is what was sent, in order. */
  predicate Delivered(l: Line) {
    |l.got| <= |l.sent| && forall k :: 0 <= k < |l.got| ==> l.got[k] == Some(l.sent[k])
  }

  /** The oldest packet in flight opens to its payload exactly when the counters are in step. */
  lemma RecvOpens(ccm: Ccm, l: Line, skew: nat)
    requires Correct(ccm) && Skewed(ccm, l, skew) && l.wire != []
    ensures skew % TWO64 == 0 ==> Recv(ccm, l).got == l.got + [Some(l.sent[|l.got|])]
    ensures Authentic(ccm) && skew % TWO64 != 0 ==> Recv(ccm, l).got == l.got + [None]
  {
    NonceRepeats(l.recvNonce, 0, skew);
    assert Advance(l.recvNonce, 0) == l.recvNonce;
    var m := l.sent[|l.got|];
    assert l.wire[0] == Seal(ccm, l.recvKey, Advance(l.recvNonce, skew + 0), m.header, m.plain);
  }

  // ---------------------------------------------------------------- both directions

  datatype Wires = Wires(ab: Line, ba: Line)

  datatype Step = SendAB(m: Item) | SendBA(m: Item) | RecvAtB | RecvAtA

  function Do(ccm: Ccm, w: Wires, s: Step): Wires {
    match s
    case SendAB(m) => w.(ab := Send(ccm, w.ab, m))
    case SendBA(m) => w.(ba := Send(ccm, w.ba, m))
    case RecvAtB => w.(ab := Recv(ccm, w.ab))
    case RecvAtA => w.(ba := Recv(ccm, w.ba))
  }

  function Run(ccm: Ccm, w: Wires, steps: seq<Step>): Wires
    decreases |steps|
  {
    if steps == [] then w else Run(ccm, Do(ccm, w, steps[0]), steps[1..])
  }

  ghost predicate InStep(ccm: Ccm, w: Wires) {
    Skewed(ccm, w.ab, 0) && Skewed(ccm, w.ba, 0) && Delivered(w.ab) && Delivered(w.ba)
  }

  lemma DoKeepsStep(ccm: Ccm, w: Wires, s: Step)
    requires Correct(ccm) && InStep(ccm, w)
    ensures InStep(ccm, Do(ccm, w, s))
  {
    match s {
      case SendAB(m) => SendKeepsSkew(ccm, w.ab, 0, m);
      case SendBA(m) => SendKeepsSkew(ccm, w.ba, 0, m);
      case RecvAtB =>
        RecvKeepsSkew(ccm, w.ab, 0);
        if w.ab.wire != [] { RecvOpens(ccm, w.ab, 0); }
      case RecvAtA =>
        RecvKeepsSkew(ccm, w.ba, 0);
        if w.ba.wire != [] { RecvOpens(ccm, w.ba, 0); }
    }
  }

  /**
   Whatever the interleaving of sends and receives, the k-th packet in flight in each direction is
   sealed under the receiver's key and its counter advanced k times, and every packet received has
   opened to its payload, in order.
   */
  lemma {:induction false} ChannelStaysInStep(ccm: Ccm, w: Wires, steps: seq<Step>)
    requires Correct(ccm) && InStep(ccm, w)
    ensures InStep(ccm, Run(ccm, w, steps))
    decreases |steps|
  {
    if steps == [] {
    } else {
      DoKeepsStep(ccm, w, steps[0]);
      ChannelStaysInStep(ccm, Do(ccm, w, steps[0]), steps[1..]);
    }
  }

  /** Packets put on a line between two points of a run. */
  function Sent(before: Line, after: Line): int { |after.sent| - |before.sent| }

  /** A direction's counter moves on by one for every packet sent in it, and by nothing else. */
  lemma {:induction false} CounterCountsPackets(ccm: Ccm, w: Wires, steps: seq<Step>)
    ensures var r := Run(ccm, w, steps);
      && Sent(w.ab, r.ab) >= 0 && r.ab.sendNonce == Advance(w.ab.sendNonce, Sent(w.ab, r.ab))
      && Sent(w.ba, r.ba) >= 0 && r.ba.sendNonce == Advance(w.ba.sendNonce, Sent(w.ba, r.ba))
    decreases |steps|
  {
    if steps == [] {
      AdvanceNone(w.ab.sendNonce);
      AdvanceNone(w.ba.sendNonce);
    } else {
      var next := Do(ccm, w, steps[0]);
      CounterCountsPackets(ccm, next, steps[1..]);
      hide Run, Inc, Advance;
      var r := Run(ccm, next, steps[1..]);
      RunFirst(ccm, w, steps);
      if steps[0].SendAB? { AdvanceInc(w.ab.sendNonce, Sent(next.ab, r.ab)); }
      if steps[0].SendBA? { AdvanceInc(w.ba.sendNonce, Sent(next.ba, r.ba)); }
    }
  }

  lemma AdvanceNone(n: Nonce)
    ensures Advance(n, 0) == n
  {}

  lemma RunFirst(ccm: Ccm, w: Wires, steps: seq<Step>)
    requires steps != []
    ensures Run(ccm, w, steps) == Run(ccm, Do(ccm, w, steps[0]), steps[1..])
  {}

  /** No direction seals two packets under the same nonce with fewer than 2^64 packets between them. */
  lemma NeverReusesNonce(ccm: Ccm, w: Wires, steps: seq<Step>)
    ensures var r := Run(ccm, w, steps);
      && (0 < Sent(w.ab, r.ab) < TWO64 ==> r.ab.sendNonce != w.ab.sendNonce)
      && (0 < Sent(w.ba, r.ba) < TWO64 ==> r.ba.sendNonce != w.ba.sendNonce)
  {
    CounterCountsPackets(ccm, w, steps);
    var r := Run(ccm, w, steps);
    AdvanceNone(w.ab.sendNonce);
    AdvanceNone(w.ba.sendNonce);
    NonceRepeats(w.ab.sendNonce, 0, Sent(w.ab, r.ab));
    NonceRepeats(w.ba.sendNonce, 0, Sent(w.ba, r.ba));
  }

  /** Counters `skew` apart, and nothing accepted since the receiver had made something of `since` packets. */
  ghost predicate Deaf(ccm: Ccm, l: Line, skew: nat, since: nat) {
    Skewed(ccm, l, skew) && since <= |l.got| && forall k :: since <= k < |l.got| ==> l.got[k] == None
  }

  /**
   A direction whose counters have drifted apart by anything but a multiple of 2^64 never
   recovers: in every run from there on every packet received is refused.
   */
  lemma {:induction false} DriftIsForever(ccm: Ccm, w: Wires, skew: nat, since: nat, steps: seq<Step>)
    requires Correct(ccm) && Authentic(ccm) && skew % TWO64 != 0 && Deaf(ccm, w.ab, skew, since)
    ensures Deaf(ccm, Run(ccm, w, steps).ab, skew, since)
    decreases |steps|
  {
    if steps == [] {
    } else {
      match steps[0] {
        case SendAB(m) => SendKeepsSkew(ccm, w.ab, skew, m);
        case RecvAtB =>
          RecvKeepsSkew(ccm, w.ab, skew);
          if w.ab.wire != [] { RecvOpens(ccm, w.ab, skew); }
        case _ =>
      }
      DriftIsForever(ccm, Do(ccm, w, steps[0]), skew, since, steps[1..]);
    }
  }
}
