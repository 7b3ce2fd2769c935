/**
 The four-message key transport between a receiver and an initiator (mechanism 6 of ISO/IEC
 11770-3), step by step on the two sides' states and down to the bytes of every frame.
 */
module Handshake {
  import opened Bytes
  import opened Stackish
  import opened RoundTrip
  import opened Messages
  import opened Channel
  import Format
  import Frames

  const INIT_MSG: Text := [105, 110, 105, 116]          // "init"
  const RECV_MSG: Text := [114, 101, 99, 118]           // "recv"
  const ENV_MSG: Text := [101, 110, 118]                // "env"

  // ---------------------------------------------------------------- the messages

  /** N, PubR */
  function Hello(n: Nonce, pub: Text): Tree { Message(HelloFields(n, pub), HEADER) }
  function HelloFields(n: Nonce, pub: Text): seq<Value> { [NumberV(n.right), NumberV(n.left), BlobV(pub)] }

  /** PubI */
  function KeyHeader(pub: Text): Tree { Message([BlobV(pub)], HEADER) }

  /** I, Kir, Ni */
  function Ident(name: Text, session: Text, n: Nonce): Tree { Message(IdentFields(name, session, n), INIT_MSG) }
  function IdentFields(name: Text, session: Text, n: Nonce): seq<Value> {
    [StringV(name), BlobV(session), NumberV(n.right), NumberV(n.left)]
  }

  /** R, Kri, Ni, Nr */
  function Reply(name: Text, session: Text, ni: Nonce, nr: Nonce): Tree {
    Message(ReplyFields(name, session, ni, nr), RECV_MSG)
  }
  function ReplyFields(name: Text, session: Text, ni: Nonce, nr: Nonce): seq<Value> {
    [StringV(name), BlobV(session), NumberV(ni.right), NumberV(ni.left), NumberV(nr.right), NumberV(nr.left)]
  }

  /** Nr */
  function Final(n: Nonce): Tree { Message([NumberV(n.right), NumberV(n.left)], INIT_MSG) }

  /** A sealed payload. */
  function Envelope(cipher: Text, tag: Text): Tree { Message([BlobV(cipher), BlobV(tag)], ENV_MSG) }

  // ---------------------------------------------------------------- reading them

  /** The outputs of a Node_decons that succeeds; none otherwise. */
  function Outs(t: Tree, f: string, word: Text): (o: seq<Value>)
    requires 'G' !in f
  {
    match Format.Decons(t, f, [word])
    case Got(outs) => outs
    case _ => []
  }

  /** The outputs a Node_decons has written when it returns, whether it succeeds or not. */
  function Written(d: Format.Deconsed): seq<Value> { if d.Missing? then [] else d.outs }

  // A field takes its output if that was written, and otherwise keeps what it had.

  function NumberAt(o: seq<Value>, i: nat, was: word64): word64 {
    if i < |o| && o[i].NumberV? then Wrap(o[i].n) else was
  }

  function BlobAt(o: seq<Value>, i: nat, was: Text): Text { if i < |o| && o[i].BlobV? then o[i].b else was }

  function StringAt(o: seq<Value>, i: nat, was: Text): Text { if i < |o| && o[i].StringV? then o[i].s else was }

  function NonceAt(o: seq<Value>, i: nat, was: Nonce): Nonce {
    Nonce(NumberAt(o, i, was.left), NumberAt(o, i + 1, was.right))
  }

  // Each pair of formats of the source makes its message and reads back what went in.

  /** `f` builds and `g` reads a message of the values `vs`, which come back as `back`. */
  predicate Pair(vs: seq<Value>, f: string, g: string, back: seq<Value>) {
    && AllData(vs) && vs != [] && back == Format.Reversed(vs)
    && f == "[" + (Letters(vs) + "w") && g == "[" + (Letters(back) + "w")
  }

  lemma PairExchanges(vs: seq<Value>, word: Text, f: string, g: string, back: seq<Value>)
    requires Pair(vs, f, g, back) && 'G' !in f && 'G' !in g
    ensures Format.Cons(f, Vals(vs) + [Format.Name(word)]) == Format.Made(Message(vs, word))
    ensures Format.Decons(Message(vs, word), g, [word]) == Format.Got(back)
  {
    hide Message, Letters, Format.Reversed, Format.Decons, Format.Cons, Vals;
    MessageFields(vs, word);
  }

  lemma HelloPair(n: Nonce, pub: Text)
    ensures Pair(HelloFields(n, pub), "[nnbw", "[bnnw", [BlobV(pub), NumberV(n.left), NumberV(n.right)])
  {}

  lemma HelloFormats(n: Nonce, pub: Text)
    ensures Format.Cons("[nnbw", Vals(HelloFields(n, pub)) + [Format.Name(HEADER)]) == Format.Made(Hello(n, pub))
    ensures Format.Decons(Hello(n, pub), "[bnnw", [HEADER])
         == Format.Got([BlobV(pub), NumberV(n.left), NumberV(n.right)])
  {
    hide Message, Format.Decons, Vals, Format.Cons, Pair;
    HelloPair(n, pub);
    PairExchanges(HelloFields(n, pub), HEADER, "[nnbw", "[bnnw", [BlobV(pub), NumberV(n.left), NumberV(n.right)]);
  }

  lemma KeyHeaderPair(pub: Text)
    ensures Pair([BlobV(pub)], "[bw", "[bw", [BlobV(pub)])
  {}

  lemma KeyHeaderFormats(pub: Text)
    ensures Format.Cons("[bw", Vals([BlobV(pub)]) + [Format.Name(HEADER)]) == Format.Made(KeyHeader(pub))
    ensures Format.Decons(KeyHeader(pub), "[bw", [HEADER])
         == Format.Got([BlobV(pub)])
  {
    hide Message, Format.Decons, Vals, Format.Cons, Pair;
    KeyHeaderPair(pub);
    PairExchanges([BlobV(pub)], HEADER, "[bw", "[bw",
                  [BlobV(pub)]);
  }

  lemma IdentPair(name: Text, session: Text, n: Nonce)
    ensures Pair(IdentFields(name, session, n), "[sbnnw", "[nnbsw",
      [NumberV(n.left), NumberV(n.right), BlobV(session), StringV(name)])
  {}

  lemma IdentFormats(name: Text, session: Text, n: Nonce)
    ensures Format.Cons("[sbnnw", Vals(IdentFields(name, session, n)) + [Format.Name(INIT_MSG)]) ==
      Format.Made(Ident(name, session, n))
    ensures Format.Decons(Ident(name, session, n), "[nnbsw", [INIT_MSG])
         == Format.Got([NumberV(n.left), NumberV(n.right), BlobV(session), StringV(name)])
  {
    hide Message, Format.Decons, Vals, Format.Cons, Pair;
    IdentPair(name, session, n);
    PairExchanges(IdentFields(name, session, n), INIT_MSG, "[sbnnw", "[nnbsw",
                  [NumberV(n.left), NumberV(n.right), BlobV(session), StringV(name)]);
  }

  lemma ReplyPair(name: Text, session: Text, ni: Nonce, nr: Nonce)
    ensures Pair(ReplyFields(name, session, ni, nr), "[sbnnnnw", "[nnnnbsw",
      [NumberV(nr.left), NumberV(nr.right), NumberV(ni.left), NumberV(ni.right), BlobV(session), StringV(name)])
  {}

  lemma ReplyFormats(name: Text, session: Text, ni: Nonce, nr: Nonce)
    ensures Format.Cons("[sbnnnnw", Vals(ReplyFields(name, session, ni, nr)) + [Format.Name(RECV_MSG)])
         == Format.Made(Reply(name, session, ni, nr))
    ensures Format.Decons(Reply(name, session, ni, nr), "[nnnnbsw", [RECV_MSG])
         == Format.Got([NumberV(nr.left), NumberV(nr.right),
                        NumberV(ni.left), NumberV(ni.right), BlobV(session), StringV(name)])
  {
    hide Message, Format.Decons, Vals, Format.Cons, Pair;
    ReplyPair(name, session, ni, nr);
    PairExchanges(ReplyFields(name, session, ni, nr), RECV_MSG, "[sbnnnnw", "[nnnnbsw",
                  [NumberV(nr.left), NumberV(nr.right),
                   NumberV(ni.left), NumberV(ni.right), BlobV(session), StringV(name)]);
  }

  lemma FinalPair(n: Nonce)
    ensures Pair([NumberV(n.right), NumberV(n.left)], "[nnw", "[nnw", [NumberV(n.left), NumberV(n.right)])
  {}

  lemma FinalFormats(n: Nonce)
    ensures Format.Cons("[nnw", Vals([NumberV(n.right), NumberV(n.left)]) + [Format.Name(INIT_MSG)]) ==
      Format.Made(Final(n))
    ensures Format.Decons(Final(n), "[nnw", [INIT_MSG])
         == Format.Got([NumberV(n.left), NumberV(n.right)])
  {
    hide Message, Format.Decons, Vals, Format.Cons, Pair;
    FinalPair(n);
    PairExchanges([NumberV(n.right), NumberV(n.left)], INIT_MSG, "[nnw", "[nnw",
                  [NumberV(n.left), NumberV(n.right)]);
  }

  lemma EnvelopePair(cipher: Text, tag: Text)
    ensures Pair([BlobV(cipher), BlobV(tag)], "[bbw", "[bbw", [BlobV(tag), BlobV(cipher)])
  {}

  lemma EnvelopeFormats(cipher: Text, tag: Text)
    ensures Format.Cons("[bbw", Vals([BlobV(cipher), BlobV(tag)]) + [Format.Name(ENV_MSG)]) ==
      Format.Made(Envelope(cipher, tag))
    ensures Format.Decons(Envelope(cipher, tag), "[bbw", [ENV_MSG])
         == Format.Got([BlobV(tag), BlobV(cipher)])
  {
    hide Message, Format.Decons, Vals, Format.Cons, Pair;
    EnvelopePair(cipher, tag);
    PairExchanges([BlobV(cipher), BlobV(tag)], ENV_MSG, "[bbw", "[bbw",
                  [BlobV(tag), BlobV(cipher)]);
  }

  // ---------------------------------------------------------------- sealed nodes

  /** CryptState_encrypt_node: the payload's canonical text, sealed, in an envelope. */
  function Sealed(ccm: Ccm, key: Text, n: Nonce, header: Text, payload: Tree): Tree
    requires FloatFree(payload)
  {
    var p := Seal(ccm, key, n, header, Canonical(payload));
    Envelope(p.cipher, p.tag)
  }

  /**
   What CryptState_decrypt_packet finds in a packet: a sealed text and its tag; a text taken out before
   the name turned out wrong; or nothing.
   */
  datatype Reading = Enclosed(tag: Text, cipher: Text) | Misnamed(text: Text) | Unreadable

  function ReadEnvelope(packet: Tree): Reading {
    match Format.Decons(packet, "[bbw", [ENV_MSG])
    case Got(o) => if |o| == 2 && o[0].BlobV? && o[1].BlobV? then Enclosed(o[0].b, o[1].b) else Unreadable
    case Mismatch(o) => if |o| == 2 && o[1].BlobV? then Misnamed(o[1].b) else Unreadable
    case Missing => Unreadable
  }

  /** The newest child, and the one before it or, for want of one, the same again, are blobs. */
  predicate TwoBlobs(packet: Tree) {
    packet.Node? && packet.child.Node? && packet.child.value.BlobV? && Format.Next(packet.child).value.BlobV?
  }

  /** Both outputs of the packet are one and the same string, which opening overwrites with the plaintext. */
  predicate Shared(packet: Tree) { packet.Node? && packet.child.Node? && packet.child.sibling.Nil? }

  lemma EnvelopeSteps(packet: Tree)
    requires packet.Node?
    ensures Format.Decons(packet, "[bbw", [ENV_MSG]) ==
      Format.DeconsRun(packet.child, Format.Under(packet, Format.Rootless), "bbw", [ENV_MSG], [])
  {
    assert "[bbw"[1..] == "bbw";
  }

  lemma BlobStep(here: Tree, trail: Format.Trail, f: string, o: seq<Value>)
    requires 'G' !in f
    ensures Format.DeconsRun(here, trail, "b" + f, [ENV_MSG], o)
         == if here.Node? && here.value.BlobV?
               then Format.DeconsRun(Format.Next(here), trail, f, [ENV_MSG], o + [here.value])
            else Format.Mismatch(o)
  {
    assert ("b" + f)[1..] == f;
  }

  lemma WordStep(here: Tree, packet: Tree, o: seq<Value>)
    requires here.Node? && packet.Node?
    ensures Format.DeconsRun(here, Format.Under(packet, Format.Rootless), "w", [ENV_MSG], o)
         == if packet.name == Some(ENV_MSG) then Format.Got(o) else Format.Mismatch(o)
  {}

  /**
   A packet with its two blobs is a sealing exactly when it is named "env"; under any other name its text is
   taken as it is.
   */
  lemma EnvelopeReading(packet: Tree)
    requires packet.Node?
    ensures ReadEnvelope(packet) ==
      if !TwoBlobs(packet) then Unreadable
      else if packet.name == Some(ENV_MSG) then Enclosed(packet.child.value.b, Format.Next(packet.child).value.b)
      else Misnamed(Format.Next(packet.child).value.b)
  {
    hide Format.DeconsRun, Format.Decons;
    EnvelopeSteps(packet);
    var trail := Format.Under(packet, Format.Rootless);
    assert "bbw" == "b" + "bw" && "bw" == "b" + "w";
    BlobStep(packet.child, trail, "bw", []);
    if packet.child.Node? && packet.child.value.BlobV? {
      var second := Format.Next(packet.child);
      assert [] + [packet.child.value] == [packet.child.value];
      BlobStep(second, trail, "w", [packet.child.value]);
      if second.value.BlobV? {
        assert [packet.child.value] + [second.value] == [packet.child.value, second.value];
        WordStep(Format.Next(second), packet, [packet.child.value, second.value]);
      }
    }
  }

  /** CryptState_decrypt_packet: the text it hands on. A misnamed packet's own text goes through unopened. */
  function Decrypted(ccm: Ccm, key: Text, n: Nonce, header: Text, packet: Tree): Option<Text> {
    match ReadEnvelope(packet)
    case Unreadable => None
    case Misnamed(text) => Some(text)
    case Enclosed(tag, cipher) =>
      var (text, expected) := ccm.unseal(key, n, header, cipher);
      if expected == (if Shared(packet) then text else tag) then Some(text) else None
  }

  /** Node_parse. */
  function Parsing(text: Text): Option<Tree> {
    match ParseSeq(text, 0)
    case Parsed(t, _) => if t.Node? then Some(t) else None
    case _ => None
  }

  /** Node_parse on a text that is not empty. */
  function Read(text: Text): Option<Tree> { if text == [] then None else Parsing(text) }

  /** CryptState_decrypt_node. */
  function Unsealed(ccm: Ccm, key: Text, n: Nonce, header: Text, packet: Tree): Option<Tree> {
    match Decrypted(ccm, key, n, header, packet)
    case None => None
    case Some(text) => Read(text)
  }

  lemma CanonicalReads(payload: Tree)
    requires Document(payload)
    ensures Read(Canonical(payload)) == Some(payload)
  {
    CanonicalRoundTrip(payload);
    hide ParseSeq, WellFormed, Print;
  }

  lemma TwoFields(a: Value, b: Value, word: Text)
    ensures Message([a, b], word) == Node(GroupV, Some(word), Nil, Node(b, None, Node(a, None, Nil, Nil), Nil))
  {
    var vs := [a, b];
    assert vs[..1] == [a] && [a][..0] == [];
    assert Row([a]) == Format.Item(a, None, false, Row([a][..0]), Format.End);
    assert Row(vs) == Format.Item(b, None, false, Row([a]), Format.End);
    assert Format.Shape(Row([a])) == Node(a, None, Nil, Nil);
    assert Format.Shape(Row(vs)) == Node(b, None, Format.Shape(Row([a])), Nil);
  }

  lemma EnvelopeIsSealed(cipher: Text, tag: Text)
    ensures Envelope(cipher, tag).Node? && ReadEnvelope(Envelope(cipher, tag)) == Enclosed(tag, cipher)
    ensures !Shared(Envelope(cipher, tag))
  {
    TwoFields(BlobV(cipher), BlobV(tag), ENV_MSG);
    hide Message, ReadEnvelope;
    EnvelopeReading(Envelope(cipher, tag));
  }

  lemma UnsealedUndoesSealed(ccm: Ccm, key: Text, n: Nonce, header: Text, payload: Tree)
    requires Correct(ccm) && Document(payload)
    ensures Unsealed(ccm, key, n, header, Sealed(ccm, key, n, header, payload)) == Some(payload)
  {
    var p := Seal(ccm, key, n, header, Canonical(payload));
    EnvelopeIsSealed(p.cipher, p.tag);
    CanonicalReads(payload);
    hide ReadEnvelope, Read, Envelope, Canonical, Shared;
  }

  /** The packet's two blobs are a sealing, under this key, counter and header, of a text that reads as `t`. */
  ghost predicate Vouched(ccm: Ccm, key: Text, n: Nonce, header: Text, packet: Tree, t: Tree)
    requires TwoBlobs(packet)
  {
    exists plain :: Read(plain) == Some(t)
      && ccm.seal(key, n, header, plain) == (Format.Next(packet.child).value.b, packet.child.value.b)
  }

  /** Opening and sealing again gives back the ciphertext and the tag that opening expected. */
  ghost predicate Reversible(ccm: Ccm) {
    forall k, n, h, c :: ccm.seal(k, n, h, ccm.unseal(k, n, h, c).0) == (c, ccm.unseal(k, n, h, c).1)
  }

  lemma VouchedMeans(ccm: Ccm, key: Text, n: Nonce, header: Text, packet: Tree, t: Tree)
    requires Correct(ccm) && Reversible(ccm) && TwoBlobs(packet)
    ensures Vouched(ccm, key, n, header, packet, t) <==>
      var (text, expected) := ccm.unseal(key, n, header, Format.Next(packet.child).value.b);
      expected == packet.child.value.b && Read(text) == Some(t)
  {
    hide Read;
  }

  /**
   What CryptState_decrypt_node returns for a packet named "env" that holds two strings is vouched for
   by our key, counter and header.
   */
  lemma AcceptedMeans(ccm: Ccm, key: Text, n: Nonce, header: Text, packet: Tree, t: Tree)
    requires Correct(ccm) && Reversible(ccm) && packet.Node? && Unsealed(ccm, key, n, header, packet) == Some(t)
    requires packet.name == Some(ENV_MSG) && !Shared(packet)
    ensures TwoBlobs(packet) && Vouched(ccm, key, n, header, packet, t)
  {
    EnvelopeReading(packet);
    hide ReadEnvelope, Read, Vouched;
    VouchedMeans(ccm, key, n, header, packet, t);
  }

  /** A key, a counter and a header to open under. */
  datatype Setting = Setting(key: Text, nonce: Nonce, header: Text)

  function OpensTo(ccm: Ccm, s: Setting, packet: Tree): Option<Tree> { Unsealed(ccm, s.key, s.nonce, s.header, packet) }

  /** A sealing is not accepted under a second key, counter or header. */
  lemma SealingIsBound(ccm: Ccm, a: Setting, b: Setting, packet: Tree)
    requires Authentic(ccm) && Reversible(ccm) && a != b
    requires packet.Node? && packet.name == Some(ENV_MSG) && !Shared(packet)
    ensures !(OpensTo(ccm, a, packet).Some? && OpensTo(ccm, b, packet).Some?)
  {
    EnvelopeReading(packet);
    hide ReadEnvelope, Read;
    if TwoBlobs(packet) {
      var cipher := Format.Next(packet.child).value.b;
      var plain := ccm.unseal(a.key, a.nonce, a.header, cipher).0;
      assert ccm.seal(a.key, a.nonce, a.header, plain).0 == cipher;
    }
  }

  /**
   A packet is taken whatever the key, the counter and the header are exactly when it holds its two
   blobs, has another name than "env", and the second blob reads as a document. (A single string that
   stands for both blobs of an "env" packet is left aside: it is compared with its own plaintext.)
   */
  lemma AcceptedAnyway(ccm: Ccm, a: Setting, b: Setting, packet: Tree)
    requires Authentic(ccm) && Reversible(ccm) && a != b
    requires packet.Node? && (packet.name == Some(ENV_MSG) ==> !Shared(packet))
    ensures OpensTo(ccm, a, packet).Some? && OpensTo(ccm, b, packet).Some? <==>
      TwoBlobs(packet) && packet.name != Some(ENV_MSG) && Read(Format.Next(packet.child).value.b).Some?
    ensures packet.name != Some(ENV_MSG) ==> OpensTo(ccm, a, packet) == OpensTo(ccm, b, packet)
  {
    EnvelopeReading(packet);
    hide ReadEnvelope, Read;
    if packet.name == Some(ENV_MSG) { SealingIsBound(ccm, a, b, packet); }
  }

  /**
   Any document in two blobs under another name is returned as it stands, whatever the key, the counter and the
   header.
   */
  lemma MisnamedIsAccepted(ccm: Ccm, key: Text, n: Nonce, header: Text, payload: Tree, tag: Text, name: Text)
    requires Document(payload) && name != ENV_MSG
    ensures Unsealed(ccm, key, n, header, Message([BlobV(Canonical(payload)), BlobV(tag)], name)) == Some(payload)
  {
    hide Canonical, Message, ReadEnvelope, Read;
    var cipher := BlobV(Canonical(payload));
    TwoFields(cipher, BlobV(tag), name);
    EnvelopeReading(Message([cipher, BlobV(tag)], name));
    CanonicalReads(payload);
  }

  /** What FrameSource_recv makes of a frame FrameSource_send has written. */
  function Carried(header: Text, msg: Tree): Option<Frames.Received>
    requires FloatFree(msg)
  {
    match Frames.TakeFrame(Frames.Wire(header + Canonical(msg)))
    case Taken(data, _) => Some(Frames.Unpack(data))
    case _ => None
  }

  /** Does a frame's length fit its two length bytes? */
  predicate Fits(header: Text, msg: Tree)
    requires FloatFree(msg)
  {
    |header + Canonical(msg)| < Frames.TWO16
  }

  lemma EnvelopePrints(cipher: Text, tag: Text)
    ensures FloatFree(Envelope(cipher, tag))
    ensures |Canonical(Envelope(cipher, tag))| < TWO64 ==> Document(Envelope(cipher, tag))
  {
    var vs := [BlobV(cipher), BlobV(tag)];
    MessagePrints(vs, ENV_MSG);
    hide Message;
    assert |vs[0].b| <= |Print(Message(vs, ENV_MSG))| && |vs[1].b| <= |Print(Message(vs, ENV_MSG))|;
  }

  /** Peer_send, then Peer_recv: a frame that fits brings the header's bytes and the payload. */
  lemma SealedArrives(ccm: Ccm, key: Text, n: Nonce, h: Tree, payload: Tree)
    requires Correct(ccm) && Document(h) && Document(payload)
    ensures var e := Sealed(ccm, key, n, Canonical(h), payload);
      && FloatFree(e) && e.Node?
      && (Fits(Canonical(h), e) ==>
            && Carried(Canonical(h), e) == Some(Frames.Received(h, Canonical(h), e, false))
            && Unsealed(ccm, key, n, Canonical(h), e) == Some(payload))
  {
    var p := Seal(ccm, key, n, Canonical(h), Canonical(payload));
    EnvelopePrints(p.cipher, p.tag);
    UnsealedUndoesSealed(ccm, key, n, Canonical(h), payload);
    hide Envelope, Unsealed, Frames.Unpack, Frames.TakeFrame, Frames.Wire, Canonical;
    var e := Sealed(ccm, key, n, Canonical(h), payload);
    if Fits(Canonical(h), e) {
      Frames.SendThenRecv(h, e, []);
      assert Frames.Wire(Canonical(h) + Canonical(e)) + [] == Frames.Wire(Canonical(h) + Canonical(e));
    }
  }

  /** The receiver's first message arrives as a header without a body. */
  lemma HelloArrives(n: Nonce, pub: Text)
    ensures FloatFree(Hello(n, pub))
    ensures Fits([], Hello(n, pub)) ==>
      Carried([], Hello(n, pub)) == Some(Frames.Received(Hello(n, pub), Canonical(Hello(n, pub)), Nil, false))
  {
    var vs := HelloFields(n, pub);
    MessagePrints(vs, HEADER);
    hide Message, Frames.Unpack, Frames.TakeFrame, Frames.Wire;
    var d := Hello(n, pub);
    if Fits([], d) {
      assert |vs[2].b| <= |Print(d)|;
      Frames.UnpackLoneDocument(d, true);
      Frames.TakeFrameUndoesWire([] + Canonical(d), []);
      assert Frames.Wire([] + Canonical(d)) + [] == Frames.Wire([] + Canonical(d));
    }
  }

  // ---------------------------------------------------------------- the two sides

  /** The foreign primitives: a key pair's public half, the agreed secret, and CCM. */
  datatype Suite = Suite(pub: Text -> Text, agree: (Text, Text) -> Text, ccm: Ccm)

  ghost predicate Works(s: Suite) {
    Correct(s.ccm) && forall a, b :: s.agree(a, s.pub(b)) == s.agree(b, s.pub(a))
  }

  lemma WorksMeans(s: Suite, a: Text, b: Text)
    requires Works(s)
    ensures Correct(s.ccm) && s.agree(a, s.pub(b)) == s.agree(b, s.pub(a))
  {}

  /** One side as a CryptState knows it. `key` is the key pair of `me` and the public key of `them`. */
  datatype Party = Party(name: Text, key: Text, session: Text, nonce: Nonce, skey: Text)

  /** "[ header \n", which stands in where a message needs no header of its own. */
  const EMPTY_HEADER: Text := [91, 32, 104, 101, 97, 100, 101, 114, 32, 10]

  const NO_FIELDS := Node(GroupV, Some(HEADER), Nil, Nil)

  lemma EmptyHeader()
    ensures Document(NO_FIELDS) && Canonical(NO_FIELDS) == EMPTY_HEADER
  {
    CStringWhole(HEADER);
    var t := NO_FIELDS;
    assert PrintOne(t) == [OPEN, SPACE] + [] + [] + (HEADER + [SPACE]);
  }

  /** Everything a CryptState holds. */
  datatype Sides = Sides(me: Party, them: Party, shared: Text)

  /**
   CryptState_decrypt_node: the own counter advances for a sealing, even when its tag is wrong, and for nothing
   else.
   */
  function DecryptStep(ccm: Ccm, s: Sides, key: Text, header: Text, packet: Tree): (Sides, Option<Tree>) {
    (if ReadEnvelope(packet).Enclosed? then s.(me := s.me.(nonce := Inc(s.me.nonce))) else s,
     Unsealed(ccm, key, s.me.nonce, header, packet))
  }

  /** CryptState_create_shared_key. A nonce is taken as far as the header could be read. */
  function SharedKeyStep(suite: Suite, s: Sides, header: Tree, nonced: bool, confirms: Text -> bool): (Sides, bool) {
    var d := Format.Decons(header, if nonced then "[bnnw" else "[bw", [HEADER]);
    var o := Written(d);
    var nonce := if nonced then NonceAt(o, 1, s.them.nonce) else s.them.nonce;
    var pub := BlobAt(o, 0, []);
    if !d.Got? then (s.(them := s.them.(nonce := nonce)), false)
    else if !confirms(pub) then (s.(them := s.them.(key := pub, nonce := nonce)), false)
    else (s.(them := s.them.(key := pub, nonce := nonce), shared := suite.agree(s.me.key, pub)), true)
  }

  /** The fields of `them` that the second message fills, as far as it could be read. */
  function TakeIdent(them: Party, o: seq<Value>): Party {
    them.(nonce := NonceAt(o, 0, them.nonce), session := BlobAt(o, 2, them.session), name := StringAt(o, 3, them.name))
  }

  /** CryptState_receiver_process_response. */
  function ReceiverStep(suite: Suite, s: Sides, hbuf: Text, msg: Tree, confirms: Text -> bool): (Sides, bool) {
    match Parsing(hbuf)
    case None => (s, false)
    case Some(header) =>
      var (s1, agreed) := SharedKeyStep(suite, s, header, false, confirms);
      if !agreed then (s1, false) else
        var (s2, payload) := DecryptStep(suite.ccm, s1, s1.shared, hbuf, msg);
        if payload.None? then (s2, false) else
          var d := Format.Decons(payload.value, "[nnbsw", [INIT_MSG]);
          (s2.(them := TakeIdent(s2.them, Written(d))), d.Got?)
  }

  /** The fields of `them` that the third message fills, as far as it could be read. */
  function TakeReply(them: Party, o: seq<Value>): Party {
    them.(nonce := NonceAt(o, 0, them.nonce), session := BlobAt(o, 4, them.session), name := StringAt(o, 5, them.name))
  }

  /** Our own nonce as the third message returns it. */
  function ReturnedNonce(payload: Tree): Nonce {
    NonceAt(Written(Format.Decons(payload, "[nnnnbsw", [RECV_MSG])), 2, Nonce(0, 0))
  }

  /** CryptState_initiator_process_response. */
  function InitiatorStep(suite: Suite, s: Sides, hbuf: Text, msg: Tree): (Sides, bool, bool) {
    var (s1, payload) := DecryptStep(suite.ccm, s, s.shared, hbuf, msg);
    if payload.None? then (s1, false, false) else
      var d := Format.Decons(payload.value, "[nnnnbsw", [RECV_MSG]);
      (s1.(them := TakeReply(s1.them, Written(d))), d.Got?, d.Got? && s1.me.nonce == Inc(ReturnedNonce(payload.value)))
  }

  function Finalized(s: Sides): Sides {
    Sides(s.me.(skey := s.me.session, session := []), s.them.(skey := s.them.session, session := []), [])
  }

  /** The nonce in the last message. */
  function LastNonce(payload: Tree): Option<Nonce> {
    match Format.Decons(payload, "[nnw", [INIT_MSG])
    case Got(o) => Some(NonceAt(o, 0, Nonce(0, 0)))
    case _ => None
  }

  /** CryptState_receiver_done. */
  function DoneStep(suite: Suite, s: Sides, hbuf: Text, msg: Tree): (Sides, bool) {
    var (s1, payload) := DecryptStep(suite.ccm, s, s.shared, hbuf, msg);
    if payload.Some? && LastNonce(payload.value).Some? && s1.me.nonce == Inc(LastNonce(payload.value).value)
    then (Finalized(s1), true) else (s1, false)
  }

  class CryptState {
    const suite: Suite
    var me: Party
    var them: Party
    var shared: Text

    ghost function State(): Sides
      reads this
    {
      Sides(me, them, shared)
    }

    constructor (suite: Suite, me: Party, them: Party)
      ensures this.suite == suite && this.me == me && this.them == them && shared == []
    {
      this.suite, this.me, this.them, shared := suite, me, them, [];
    }

    /** CryptState_encrypt_node: seals under the peer's counter and advances it. */
    method EncryptNode(key: Text, header: Text, payload: Tree) returns (msg: Tree)
      requires FloatFree(payload)
      modifies this`them
      ensures msg == Sealed(suite.ccm, key, old(them.nonce), header, payload)
      ensures them == old(them).(nonce := Inc(old(them.nonce)))
    {
      var (cipher, tag) := suite.ccm.seal(key, them.nonce, header, Canonical(payload));
      them := them.(nonce := Inc(them.nonce));
      var made := Format.Cons("[bbw", Vals([BlobV(cipher), BlobV(tag)]) + [Format.Name(ENV_MSG)]);
      EnvelopeFormats(cipher, tag);
      msg := made.tree;
    }

    /**
     CryptState_decrypt_node. A sealing is opened under our own counter, which advances even when the
     tag is wrong; the string taken out of a packet with another name is passed on unopened.
     */
    method DecryptNode(key: Text, header: Text, packet: Tree) returns (payload: Option<Tree>)
      requires packet.Node?
      modifies this`me
      ensures (State(), payload) == DecryptStep(suite.ccm, old(State()), key, header, packet)
      ensures me.nonce == if TwoBlobs(packet) && packet.name == Some(ENV_MSG) then Inc(old(me.nonce)) else old(me.nonce)
    {
      EnvelopeReading(packet);
      hide TwoBlobs, Inc;
      payload := None;
      var d := Format.Decons(packet, "[bbw", [ENV_MSG]);
      hide Format.Decons, Parsing;
      if d.Missing? { return; }
      var text := BlobAt(d.outs, 1, []);
      var given := |d.outs| == 2 && d.outs[1].BlobV?;
      if d.Got? && given && d.outs[0].BlobV? {
        var (plain, expected) := suite.ccm.unseal(key, me.nonce, header, text);
        me := me.(nonce := Inc(me.nonce));
        var tag := if Shared(packet) then plain else d.outs[0].b;
        text, given := plain, expected == tag;
      } else if d.Got? {
        given := false;
      }
      if given && text != [] { payload := Parsing(text); }
    }

    /** CryptState_create_shared_key. */
    method CreateSharedKey(header: Tree, nonced: bool, confirms: Text -> bool) returns (ok: bool)
      modifies this`them, this`shared
      ensures (State(), ok) == SharedKeyStep(suite, old(State()), header, nonced, confirms)
    {
      hide Format.Decons, NonceAt;
      var d := Format.Decons(header, if nonced then "[bnnw" else "[bw", [HEADER]);
      if nonced { them := them.(nonce := NonceAt(Written(d), 1, them.nonce)); }
      if !d.Got? { return false; }
      them := them.(key := BlobAt(d.outs, 0, []));
      ok := confirms(them.key);
      if ok { shared := suite.agree(me.key, them.key); }
    }

    /** CryptState_finalize_session. */
    method FinalizeSession()
      modifies this
      ensures State() == Finalized(old(State()))
      ensures me.skey == old(me.session) && them.skey == old(them.session)
      ensures me.session == them.session == shared == []
    {
      me := me.(skey := me.session);
      them := them.(skey := them.session);
      shared := [];
      me, them := me.(session := []), them.(session := []);
    }

    /** R->I: N, PubR */
    method ReceiverStart(n: Nonce) returns (msg: Tree)
      modifies this`me
      ensures me == old(me).(nonce := n) && msg == Hello(n, suite.pub(me.key))
    {
      me := me.(nonce := n);
      var made := Format.Cons("[nnbw", Vals(HelloFields(me.nonce, suite.pub(me.key))) + [Format.Name(HEADER)]);
      HelloFormats(n, suite.pub(me.key));
      msg := made.tree;
    }

    /** I<-R: N, PubR; I->R: PubI, Er(I, Kir, Ni) */
    method InitiatorStart(recvHeader: Tree, n: Nonce, confirms: Text -> bool) returns (hbuf: Text, msg: Option<Tree>)
      requires FloatFree(KeyHeader(suite.pub(me.key))) && FloatFree(Ident(me.name, me.session, n))
      modifies this
      ensures var (s, ok) := SharedKeyStep(suite, old(State()), recvHeader, true, confirms);
        && msg.Some? == ok
        && (if !ok then State() == s else
              && hbuf == Canonical(KeyHeader(suite.pub(old(me.key))))
              && msg.value == Sealed(suite.ccm, s.shared, s.them.nonce, hbuf, Ident(old(me.name), old(me.session), n))
              && State() == s.(me := s.me.(nonce := n), them := s.them.(nonce := Inc(s.them.nonce))))
    {
      hide SharedKeyStep, Message, Sealed, Canonical, Format.Cons, Vals, Inc;
      hbuf, msg := [], None;
      var ok := CreateSharedKey(recvHeader, true, confirms);
      if ok {
        var header := Format.Cons("[bw", Vals([BlobV(suite.pub(me.key))]) + [Format.Name(HEADER)]);
        KeyHeaderFormats(suite.pub(me.key));
        hbuf := Canonical(header.tree);
        me := me.(nonce := n);
        var made := Format.Cons("[sbnnw", Vals(IdentFields(me.name, me.session, me.nonce)) + [Format.Name(INIT_MSG)]);
        IdentFormats(me.name, me.session, me.nonce);
        var sealed := EncryptNode(shared, hbuf, made.tree);
        msg := Some(sealed);
      }
    }

    /** R<-I: PubI, Er(I, Kir, Ni) */
    method ReceiverProcess(hbuf: Text, msg: Tree, confirms: Text -> bool) returns (ok: bool)
      requires msg.Node?
      modifies this
      ensures (State(), ok) == ReceiverStep(suite, old(State()), hbuf, msg, confirms)
    {
      hide Parsing, Format.Decons, DecryptStep, SharedKeyStep, TakeIdent;
      ok := false;
      var header := Parsing(hbuf);
      if header.None? { return; }
      var agreed := CreateSharedKey(header.value, false, confirms);
      if !agreed { return; }
      var payload := DecryptNode(shared, hbuf, msg);
      if payload.None? { return; }
      var d := Format.Decons(payload.value, "[nnbsw", [INIT_MSG]);
      them := TakeIdent(them, Written(d));
      ok := d.Got?;
    }

    /** R->I: Ei(R, Kri, Ni, Nr) */
    method ReceiverSendFinal(n: Nonce) returns (hbuf: Text, msg: Tree)
      requires FloatFree(Reply(me.name, me.session, them.nonce, n))
      modifies this
      ensures hbuf == EMPTY_HEADER && shared == old(shared)
      ensures me == old(me).(nonce := n) && them == old(them).(nonce := Inc(old(them.nonce)))
      ensures msg == Sealed(suite.ccm, shared, old(them.nonce), hbuf, Reply(me.name, me.session, old(them.nonce), n))
    {
      hide Message, Sealed, Format.Cons, Vals;
      hbuf := EMPTY_HEADER;
      me := me.(nonce := n);
      var made := Format.Cons("[sbnnnnw",
                              Vals(ReplyFields(me.name, me.session, them.nonce, me.nonce)) + [Format.Name(RECV_MSG)]);
      ReplyFormats(me.name, me.session, them.nonce, me.nonce);
      msg := EncryptNode(shared, hbuf, made.tree);
    }

    /**
     I<-R: Ei(R, Kri, Ni, Nr). `matched` is the outcome of comparing the returned nonce with our
     own; the result does not depend on it.
     */
    method InitiatorProcess(hbuf: Text, msg: Tree) returns (ok: bool, matched: bool)
      requires msg.Node?
      modifies this
      ensures (State(), ok, matched) == InitiatorStep(suite, old(State()), hbuf, msg)
    {
      hide Format.Decons, DecryptStep, Unsealed, TakeReply, Inc;
      ok, matched := false, false;
      var payload := DecryptNode(shared, hbuf, msg);
      if payload.None? { return; }
      var d := Format.Decons(payload.value, "[nnnnbsw", [RECV_MSG]);
      them := TakeReply(them, Written(d));
      ok := d.Got?;
      if ok { matched := me.nonce == Inc(ReturnedNonce(payload.value)); }
    }

    /** I->R: Er(Nr) */
    method InitiatorSendFinal() returns (hbuf: Text, msg: Tree)
      requires FloatFree(Final(them.nonce))
      modifies this
      ensures hbuf == EMPTY_HEADER
      ensures msg == Sealed(suite.ccm, old(shared), old(them.nonce), hbuf, Final(old(them.nonce)))
      ensures me == old(me).(skey := old(me.session), session := [])
      ensures them == old(them).(nonce := Inc(old(them.nonce)), skey := old(them.session), session := [])
    {
      hide Message, Sealed, Format.Cons, Vals;
      hbuf := EMPTY_HEADER;
      var made := Format.Cons("[nnw",
                              Vals([NumberV(them.nonce.right), NumberV(them.nonce.left)]) + [Format.Name(INIT_MSG)]);
      FinalFormats(them.nonce);
      msg := EncryptNode(shared, hbuf, made.tree);
      FinalizeSession();
    }

    /** R<-I: Er(Nr) */
    method ReceiverDone(hbuf: Text, msg: Tree) returns (ok: bool)
      requires msg.Node?
      modifies this
      ensures (State(), ok) == DoneStep(suite, old(State()), hbuf, msg)
    {
      hide Format.Decons, DecryptStep, Inc, LastNonce;
      ok := false;
      var payload := DecryptNode(shared, hbuf, msg);
      if payload.Some? {
        var expected := LastNonce(payload.value);
        if expected.Some? && me.nonce == Inc(expected.value) {
          FinalizeSession();
          ok := true;
        }
      }
    }

    /** Peer_send: the header's text and the payload sealed under the peer's session key. */
    method PeerSend(header: Tree, payload: Tree) returns (hbuf: Text, msg: Tree)
      requires FloatFree(header) && FloatFree(payload)
      modifies this`them
      ensures hbuf == Canonical(header) && msg == Sealed(suite.ccm, them.skey, old(them.nonce), hbuf, payload)
      ensures them == old(them).(nonce := Inc(old(them.nonce)))
    {
      hide Sealed, Canonical;
      hbuf := Canonical(header);
      msg := EncryptNode(them.skey, hbuf, payload);
    }

    /** Peer_recv: what a frame that has arrived opens to under our own session key. */
    method PeerRecv(frame: Frames.Received) returns (payload: Option<Tree>)
      requires frame.Received?
      modifies this`me
      ensures payload ==
        if frame.body.Nil? then None else Unsealed(suite.ccm, me.skey, old(me.nonce), frame.hbuf, frame.body)
      ensures me == old(me).(nonce :=
        if TwoBlobs(frame.body) && frame.body.name == Some(ENV_MSG) then Inc(old(me.nonce)) else old(me.nonce))
    {
      hide Unsealed, Inc;
      if frame.body.Nil? { return None; }
      payload := DecryptNode(me.skey, frame.hbuf, frame.body);
    }
  }

  // ---------------------------------------------------------------- an honest run

  datatype Outcome = Established | Refused | Oversize

  /** The two directions as Peer_send and Peer_recv start on them. */
  ghost function Fresh(i: CryptState, r: CryptState): Wires
    reads i, r
  {
    Wires(Line(i.them.skey, i.them.nonce, r.me.skey, r.me.nonce, [], [], []),
          Line(r.them.skey, r.them.nonce, i.me.skey, i.me.nonce, [], [], []))
  }

  lemma FreshIsInStep(ccm: Ccm, ka: Text, na: Nonce, kb: Text, nb: Nonce)
    ensures InStep(ccm, Wires(Line(ka, na, ka, na, [], [], []), Line(kb, nb, kb, nb, [], [], [])))
  {}

  /** A name and a session key as the rest of the system makes them: no `"` or NUL, an addressable length. */
  predicate Usable(p: Party) { QUOTE !in p.name && 0 !in p.name && |p.session| < TWO64 }

  lemma IdentIsDocument(name: Text, session: Text, n: Nonce)
    requires QUOTE !in name && 0 !in name && |session| < TWO64
    ensures Document(Ident(name, session, n))
  {
    MessagePrints(IdentFields(name, session, n), INIT_MSG);
  }

  lemma ReplyIsDocument(name: Text, session: Text, ni: Nonce, nr: Nonce)
    requires QUOTE !in name && 0 !in name && |session| < TWO64
    ensures Document(Reply(name, session, ni, nr))
  {
    MessagePrints(ReplyFields(name, session, ni, nr), RECV_MSG);
  }

  lemma FinalIsDocument(n: Nonce)
    ensures Document(Final(n))
  {
    MessagePrints([NumberV(n.right), NumberV(n.left)], INIT_MSG);
  }

  lemma KeyHeaderIsDocument(pub: Text)
    requires |pub| < TWO64
    ensures Document(KeyHeader(pub)) && KeyHeader(pub).Node?
    ensures ParseSeq(Canonical(KeyHeader(pub)), 0) == Parsed(KeyHeader(pub), |Canonical(KeyHeader(pub))|)
  {
    MessagePrints([BlobV(pub)], HEADER);
    CanonicalRoundTrip(KeyHeader(pub));
    hide ParseSeq, Message, Canonical;
  }

  // What each step does with the message an honest peer made for it.

  lemma NonceReads(o: seq<Value>, i: nat, n: Nonce, was: Nonce)
    requires i + 1 < |o| && o[i] == NumberV(n.left) && o[i + 1] == NumberV(n.right)
    ensures NonceAt(o, i, was) == n
  {}

  /** Incrementing loses nothing. */
  lemma IncInjective(a: Nonce, b: Nonce)
    ensures Inc(a) == Inc(b) <==> a == b
  {}

  lemma IdentTaken(them: Party, name: Text, session: Text, n: Nonce)
    ensures TakeIdent(them, [NumberV(n.left), NumberV(n.right), BlobV(session), StringV(name)])
         == them.(nonce := n, session := session, name := name)
  {
    hide NonceAt;
    NonceReads([NumberV(n.left), NumberV(n.right), BlobV(session), StringV(name)], 0, n, them.nonce);
  }

  lemma ReplyTaken(them: Party, name: Text, session: Text, ni: Nonce, nr: Nonce)
    ensures var o := [NumberV(nr.left), NumberV(nr.right),
                      NumberV(ni.left), NumberV(ni.right), BlobV(session), StringV(name)];
      TakeReply(them, o) == them.(nonce := nr, session := session, name := name) && NonceAt(o, 2, Nonce(0, 0)) == ni
  {
    hide NonceAt;
    var o := [NumberV(nr.left), NumberV(nr.right), NumberV(ni.left), NumberV(ni.right), BlobV(session), StringV(name)];
    NonceReads(o, 0, nr, them.nonce);
    NonceReads(o, 2, ni, Nonce(0, 0));
  }

  lemma HelloStep(suite: Suite, s: Sides, n: Nonce, pub: Text, confirms: Text -> bool)
    ensures var them := s.them.(key := pub, nonce := n);
      SharedKeyStep(suite, s, Hello(n, pub), true, confirms)
        == if confirms(pub) then (s.(them := them, shared := suite.agree(s.me.key, pub)), true)
           else (s.(them := them), false)
  {
    HelloFormats(n, pub);
    hide Format.Decons, Message, NonceAt;
    NonceReads([BlobV(pub), NumberV(n.left), NumberV(n.right)], 1, n, s.them.nonce);
  }

  lemma KeyHeaderStep(suite: Suite, s: Sides, pub: Text, confirms: Text -> bool)
    ensures var them := s.them.(key := pub);
      SharedKeyStep(suite, s, KeyHeader(pub), false, confirms)
        == if confirms(pub) then (s.(them := them, shared := suite.agree(s.me.key, pub)), true)
           else (s.(them := them), false)
  {
    KeyHeaderFormats(pub);
    hide Format.Decons, Message;
  }

  /** An honest sealing opens, and moves the counter on. */
  lemma SealedStep(ccm: Ccm, s: Sides, key: Text, header: Text, payload: Tree)
    requires Correct(ccm) && Document(payload)
    ensures DecryptStep(ccm, s, key, header, Sealed(ccm, key, s.me.nonce, header, payload))
         == (s.(me := s.me.(nonce := Inc(s.me.nonce))), Some(payload))
  {
    UnsealedUndoesSealed(ccm, key, s.me.nonce, header, payload);
    var p := Seal(ccm, key, s.me.nonce, header, Canonical(payload));
    EnvelopeIsSealed(p.cipher, p.tag);
    hide Unsealed, ReadEnvelope, Envelope, Canonical, Shared;
  }

  lemma IdentStep(suite: Suite, s: Sides, pub: Text, name: Text, session: Text, n: Nonce, confirms: Text -> bool)
    requires Correct(suite.ccm) && |pub| < TWO64 && QUOTE !in name && 0 !in name && |session| < TWO64
    ensures FloatFree(KeyHeader(pub)) && FloatFree(Ident(name, session, n))
    ensures confirms(pub) ==>
      var key, hbuf := suite.agree(s.me.key, pub), Canonical(KeyHeader(pub));
      ReceiverStep(suite, s, hbuf, Sealed(suite.ccm, key, s.me.nonce, hbuf, Ident(name, session, n)), confirms)
        == (Sides(s.me.(nonce := Inc(s.me.nonce)),
                  s.them.(key := pub, nonce := n, session := session, name := name), key), true)
    ensures !confirms(pub) ==> forall msg: Tree :: !ReceiverStep(suite, s, Canonical(KeyHeader(pub)), msg, confirms).1
  {
    KeyHeaderIsDocument(pub);
    IdentIsDocument(name, session, n);
    KeyHeaderStep(suite, s, pub, confirms);
    hide SharedKeyStep, Canonical, Message, DecryptStep, Sealed, ParseSeq, Format.Decons, TakeIdent, Inc;
    if confirms(pub) {
      var s1 := s.(them := s.them.(key := pub), shared := suite.agree(s.me.key, pub));
      SealedStep(suite.ccm, s1, s1.shared, Canonical(KeyHeader(pub)), Ident(name, session, n));
      IdentFormats(name, session, n);
      IdentTaken(s1.them, name, session, n);
    }
  }

  lemma ReplyStep(suite: Suite, s: Sides, hbuf: Text, name: Text, session: Text, ni: Nonce, nr: Nonce)
    requires Correct(suite.ccm) && QUOTE !in name && 0 !in name && |session| < TWO64
    ensures FloatFree(Reply(name, session, ni, nr)) && ReturnedNonce(Reply(name, session, ni, nr)) == ni
    ensures InitiatorStep(suite, s, hbuf, Sealed(suite.ccm, s.shared, s.me.nonce, hbuf, Reply(name, session, ni, nr)))
         == (s.(me := s.me.(nonce := Inc(s.me.nonce)), them := s.them.(nonce := nr, session := session, name := name)),
             true, s.me.nonce == ni)
  {
    ReplyIsDocument(name, session, ni, nr);
    ReplyFormats(name, session, ni, nr);
    hide Message, DecryptStep, Sealed, Format.Decons, NonceAt, Inc, TakeReply;
    SealedStep(suite.ccm, s, s.shared, hbuf, Reply(name, session, ni, nr));
    ReplyTaken(s.them, name, session, ni, nr);
    IncInjective(s.me.nonce, ni);
  }

  lemma FinalStep(suite: Suite, s: Sides, hbuf: Text)
    requires Correct(suite.ccm)
    ensures FloatFree(Final(s.me.nonce))
    ensures DoneStep(suite, s, hbuf, Sealed(suite.ccm, s.shared, s.me.nonce, hbuf, Final(s.me.nonce)))
         == (Finalized(s.(me := s.me.(nonce := Inc(s.me.nonce)))), true)
  {
    hide DoneStep, Sealed, Finalized, Message, Inc;
    FinalNonce(suite, s, hbuf, s.me.nonce);
  }

  // What the steps make of any message at all, honest or not.

  // The fields of a message, newest first.

  function FieldIn(t: Tree, i: nat): Value { if t.Node? && t.child.Node? then NthOf(t.child, i).value else GroupV }

  function NumberIn(t: Tree, i: nat): word64 { var v := FieldIn(t, i); if v.NumberV? then Wrap(v.n) else 0 }

  function BlobIn(t: Tree, i: nat): Text { var v := FieldIn(t, i); if v.BlobV? then v.b else [] }

  function StringIn(t: Tree, i: nat): Text { var v := FieldIn(t, i); if v.StringV? then v.s else [] }

  function NonceIn(t: Tree, i: nat): Nonce { Nonce(NumberIn(t, i), NumberIn(t, i + 1)) }

  /** The nonce our counter has come from, or for a message that was never sealed the one before. */
  predicate IsOurs(n: Nonce, s: Sides, msg: Tree) { if IsSealing(msg) then n == s.me.nonce else Inc(n) == s.me.nonce }

  predicate IsSealing(msg: Tree) { TwoBlobs(msg) && msg.name == Some(ENV_MSG) }

  /** Our counter moves on exactly for a sealing. */
  function Counted(s: Sides, msg: Tree): Sides {
    if IsSealing(msg) then s.(me := s.me.(nonce := Inc(s.me.nonce))) else s
  }

  lemma DecryptMeans(ccm: Ccm, s: Sides, key: Text, header: Text, msg: Tree)
    requires msg.Node?
    ensures DecryptStep(ccm, s, key, header, msg) == (Counted(s, msg), Unsealed(ccm, key, s.me.nonce, header, msg))
  {
    EnvelopeReading(msg);
    hide Unsealed, Inc, ReadEnvelope;
  }

  /** What the last message must open to: a pair of numbers, named "init". */
  predicate IsFinal(p: Option<Tree>) { p.Some? && HasFields(p.value, "nn", INIT_MSG) }

  lemma FinalReads(p: Tree)
    requires p.Node?
    ensures LastNonce(p).Some? <==> IsFinal(Some(p))
    ensures IsFinal(Some(p)) ==> LastNonce(p) == Some(NonceIn(p, 0))
  {
    hide Format.Decons, Wrap;
    FlatReading(p, "nn", INIT_MSG);
    assert "[" + ("nn" + "w") == "[nnw";
  }

  /**
   The receiver ends the handshake exactly on a message that opens to the nonce its counter stood at, or, for
   one that was never sealed, to the one before. Otherwise the keys stay as they are.
   */
  lemma DoneMeans(suite: Suite, s: Sides, hbuf: Text, msg: Tree)
    requires msg.Node?
    ensures var p := Unsealed(suite.ccm, s.shared, s.me.nonce, hbuf, msg);
      var ok := IsFinal(p) && IsOurs(NonceIn(p.value, 0), s, msg);
      DoneStep(suite, s, hbuf, msg) == (if ok then Finalized(Counted(s, msg)) else Counted(s, msg), ok)
  {
    hide Unsealed, Inc, DecryptStep, LastNonce, NonceIn, HasFields, TwoBlobs, Finalized;
    DecryptMeans(suite.ccm, s, s.shared, hbuf, msg);
    var p := Unsealed(suite.ccm, s.shared, s.me.nonce, hbuf, msg);
    if p.Some? {
      UnsealedIsNode(suite.ccm, s.shared, s.me.nonce, hbuf, msg);
      FinalReads(p.value);
      if IsFinal(p) { IncInjective(NonceIn(p.value, 0), s.me.nonce); }
    }
  }

  lemma UnsealedIsNode(ccm: Ccm, key: Text, n: Nonce, header: Text, msg: Tree)
    ensures var p := Unsealed(ccm, key, n, header, msg); p.Some? ==> p.value.Node?
  {
    hide ParseSeq, Decrypted;
  }

  /** Of the sealed last messages only the one with the receiver's own nonce is accepted. */
  lemma FinalNonce(suite: Suite, s: Sides, hbuf: Text, n: Nonce)
    requires Correct(suite.ccm)
    ensures FloatFree(Final(n))
    ensures var s1 := s.(me := s.me.(nonce := Inc(s.me.nonce)));
      DoneStep(suite, s, hbuf, Sealed(suite.ccm, s.shared, s.me.nonce, hbuf, Final(n)))
      == if n == s.me.nonce then (Finalized(s1), true) else (s1, false)
  {
    FinalIsDocument(n);
    FinalFormats(n);
    hide Message, DecryptStep, Sealed, Format.Decons, Finalized, NonceAt, Inc;
    SealedStep(suite.ccm, s, s.shared, hbuf, Final(n));
    NonceReads([NumberV(n.left), NumberV(n.right)], 0, n, Nonce(0, 0));
    IncInjective(n, s.me.nonce);
  }

  /** Keys are agreed exactly on a header of the right form whose key is confirmed. */
  lemma SharedKeyMeans(suite: Suite, s: Sides, header: Tree, nonced: bool, confirms: Text -> bool)
    requires header.Node?
    ensures var (s1, ok) := SharedKeyStep(suite, s, header, nonced, confirms);
      && (ok <==> HasFields(header, if nonced then "bnn" else "b", HEADER) && confirms(BlobIn(header, 0)))
      && (if ok then
            var pub := BlobIn(header, 0);
            s1 == Sides(s.me, s.them.(key := pub, nonce := if nonced then NonceIn(header, 1) else s.them.nonce),
                        suite.agree(s.me.key, pub))
          else s1.me == s.me && s1.shared == s.shared)
  {
    hide Format.Decons, Wrap;
    FlatReading(header, if nonced then "bnn" else "b", HEADER);
    assert "[" + ("bnn" + "w") == "[bnnw" && "[" + ("b" + "w") == "[bw";
  }

  /** What the second message must open to. */
  predicate IsIdent(p: Option<Tree>) { p.Some? && HasFields(p.value, "nnbs", INIT_MSG) }

  lemma IdentReads(p: Tree, them: Party)
    requires p.Node?
    ensures var d := Format.Decons(p, "[nnbsw", [INIT_MSG]);
      && (d.Got? <==> IsIdent(Some(p)))
      && (IsIdent(Some(p)) ==>
            TakeIdent(them, Written(d)) == Party(StringIn(p, 3), them.key, BlobIn(p, 2), NonceIn(p, 0), them.skey))
  {
    hide Format.Decons, Wrap;
    FlatReading(p, "nnbs", INIT_MSG);
    assert "[" + ("nnbs" + "w") == "[nnbsw";
  }

  /**
   The receiver goes on exactly if the header holds a key that is confirmed and the message opens, under the
   secret agreed with that key, to an identity; that is then what it knows of the other side.
   */
  lemma ReceiverMeans(suite: Suite, s: Sides, hbuf: Text, msg: Tree, confirms: Text -> bool)
    requires msg.Node?
    ensures var (s1, ok) := ReceiverStep(suite, s, hbuf, msg, confirms);
      var h := Parsing(hbuf);
      if h.None? || !HasFields(h.value, "b", HEADER) || !confirms(BlobIn(h.value, 0))
      then !ok && s1.me == s.me && s1.shared == s.shared
      else
        var pub := BlobIn(h.value, 0);
        var shared := suite.agree(s.me.key, pub);
        var p := Unsealed(suite.ccm, shared, s.me.nonce, hbuf, msg);
        && (ok <==> IsIdent(p)) && s1.me == Counted(s, msg).me && s1.shared == shared
        && (ok ==>
              s1.them == Party(StringIn(p.value, 3), pub, BlobIn(p.value, 2), NonceIn(p.value, 0), s.them.skey))
  {
    hide Unsealed, Inc, DecryptStep, NonceIn, HasFields, TwoBlobs, SharedKeyStep, Format.Decons, TakeIdent, IsIdent;
    hide BlobIn, StringIn;
    var h := Parsing(hbuf);
    if h.Some? {
      SharedKeyMeans(suite, s, h.value, false, confirms);
      var (s1, ok) := SharedKeyStep(suite, s, h.value, false, confirms);
      if ok {
        DecryptMeans(suite.ccm, s1, s1.shared, hbuf, msg);
        var p := Unsealed(suite.ccm, s1.shared, s.me.nonce, hbuf, msg);
        if p.Some? {
          UnsealedIsNode(suite.ccm, s1.shared, s.me.nonce, hbuf, msg);
          IdentReads(p.value, s1.them);
        } else {
          NothingRead();
        }
      }
    }
  }

  lemma NothingRead()
    ensures !IsIdent(None) && !IsReply(None)
  {}

  /** What the third message must open to. */
  predicate IsReply(p: Option<Tree>) { p.Some? && HasFields(p.value, "nnnnbs", RECV_MSG) }

  lemma ReplyReads(p: Tree, them: Party)
    requires p.Node?
    ensures var d := Format.Decons(p, "[nnnnbsw", [RECV_MSG]);
      && (d.Got? <==> IsReply(Some(p)))
      && (IsReply(Some(p)) ==>
            && ReturnedNonce(p) == NonceIn(p, 2)
            && TakeReply(them, Written(d)) == Party(StringIn(p, 5), them.key, BlobIn(p, 4), NonceIn(p, 0), them.skey))
  {
    hide Format.Decons, Wrap;
    FlatReading(p, "nnnnbs", RECV_MSG);
    assert "[" + ("nnnnbs" + "w") == "[nnnnbsw";
  }

  /** The initiator goes on exactly if the message opens to a reply, whether or not that returns its nonce. */
  lemma InitiatorMeans(suite: Suite, s: Sides, hbuf: Text, msg: Tree)
    requires msg.Node?
    ensures var (s1, ok, matched) := InitiatorStep(suite, s, hbuf, msg);
      var p := Unsealed(suite.ccm, s.shared, s.me.nonce, hbuf, msg);
      && (ok <==> IsReply(p)) && s1.me == Counted(s, msg).me && s1.shared == s.shared
      && (matched <==> IsReply(p) && IsOurs(NonceIn(p.value, 2), s, msg))
      && (ok ==>
            s1.them == Party(StringIn(p.value, 5), s.them.key, BlobIn(p.value, 4), NonceIn(p.value, 0), s.them.skey))
  {
    hide Unsealed, Inc, DecryptStep, NonceIn, HasFields, TwoBlobs, Format.Decons, TakeReply, ReturnedNonce;
    hide BlobIn, StringIn;
    DecryptMeans(suite.ccm, s, s.shared, hbuf, msg);
    var p := Unsealed(suite.ccm, s.shared, s.me.nonce, hbuf, msg);
    if p.Some? {
      UnsealedIsNode(suite.ccm, s.shared, s.me.nonce, hbuf, msg);
      ReplyReads(p.value, Counted(s, msg).them);
      if IsReply(p) { IncInjective(NonceIn(p.value, 2), s.me.nonce); }
    }
  }

  // The frames of an honest run, and how far it gets with them.

  lemma HonestPrints(pub: Text, name: Text, session: Text, n: Nonce, n': Nonce)
    ensures FloatFree(Hello(n, pub)) && FloatFree(KeyHeader(pub)) && FloatFree(Ident(name, session, n))
    ensures FloatFree(Reply(name, session, n, n')) && FloatFree(Final(n))
  {
    hide Message;
    MessagePrints(HelloFields(n, pub), HEADER);
    MessagePrints([BlobV(pub)], HEADER);
    MessagePrints(IdentFields(name, session, n), INIT_MSG);
    MessagePrints(ReplyFields(name, session, n, n'), RECV_MSG);
    MessagePrints([NumberV(n.right), NumberV(n.left)], INIT_MSG);
  }

  lemma SealedPrints(ccm: Ccm, key: Text, n: Nonce, header: Text, payload: Tree)
    requires FloatFree(payload)
    ensures FloatFree(Sealed(ccm, key, n, header, payload))
  {
    var p := Seal(ccm, key, n, header, Canonical(payload));
    EnvelopePrints(p.cipher, p.tag);
    hide Envelope, Canonical;
  }

  /** A header's bytes with a payload sealed behind them. */
  function SealedFrame(ccm: Ccm, key: Text, n: Nonce, header: Text, payload: Tree): Text
    requires FloatFree(payload)
  {
    SealedPrints(ccm, key, n, header, payload);
    header + Canonical(Sealed(ccm, key, n, header, payload))
  }

  /** Messages one and two. */
  function FirstFrames(suite: Suite, r: Party, i: Party, n0: Nonce, ni: Nonce): (fs: seq<Text>)
    ensures |fs| == 2
  {
    var pubR, pubI := suite.pub(r.key), suite.pub(i.key);
    HonestPrints(pubR, i.name, i.session, n0, ni);
    HonestPrints(pubI, i.name, i.session, ni, ni);
    var header := Canonical(KeyHeader(pubI));
    [[] + Canonical(Hello(n0, pubR)),
     SealedFrame(suite.ccm, suite.agree(r.key, pubI), n0, header, Ident(i.name, i.session, ni))]
  }

  /** Messages three and four. */
  function LastFrames(ccm: Ccm, key: Text, name: Text, session: Text, ni: Nonce, nr: Nonce): (fs: seq<Text>)
    ensures |fs| == 2
  {
    HonestPrints([], name, session, ni, nr);
    HonestPrints([], [], [], nr, nr);
    [SealedFrame(ccm, key, ni, EMPTY_HEADER, Reply(name, session, ni, nr)),
     SealedFrame(ccm, key, nr, EMPTY_HEADER, Final(nr))]
  }

  function HonestFrames(suite: Suite, r: Party, i: Party, n0: Nonce, ni: Nonce, nr: Nonce): (fs: seq<Text>)
    ensures |fs| == 4
  {
    var key := suite.agree(r.key, suite.pub(i.key));
    FirstFrames(suite, r, i, n0, ni) + LastFrames(suite.ccm, key, r.name, r.session, ni, nr)
  }

  /** A header and a payload. */
  type Letter = (Tree, Tree)

  predicate Writable(m: Letter): (ok: bool)
    ensures ok ==> FloatFree(m.0) && FloatFree(m.1)
  {
    Document(m.0) && Document(m.1)
  }

  /** The bytes of the frame Peer_send makes of a letter. */
  function LetterFrame(ccm: Ccm, key: Text, n: Nonce, m: Letter): Text
    requires Writable(m)
  {
    SealedFrame(ccm, key, n, Canonical(m.0), m.1)
  }

  /** Is a frame too long for its two length bytes? */
  predicate Long(frame: Text) { |frame| >= Frames.TWO16 }

  lemma FirstFramesAre(suite: Suite, r: Party, i: Party, n0: Nonce, ni: Nonce)
    ensures var pubR, pubI := suite.pub(r.key), suite.pub(i.key);
      && FloatFree(Hello(n0, pubR)) && FloatFree(KeyHeader(pubI)) && FloatFree(Ident(i.name, i.session, ni))
      && var header := Canonical(KeyHeader(pubI));
         FirstFrames(suite, r, i, n0, ni) ==
           [[] + Canonical(Hello(n0, pubR)),
            SealedFrame(suite.ccm, suite.agree(r.key, pubI), n0, header, Ident(i.name, i.session, ni))]
  {
    HonestPrints(suite.pub(r.key), i.name, i.session, n0, ni);
    HonestPrints(suite.pub(i.key), i.name, i.session, ni, ni);
    hide Message, Canonical, SealedFrame;
  }

  lemma LastFramesAre(ccm: Ccm, key: Text, name: Text, session: Text, ni: Nonce, nr: Nonce)
    ensures FloatFree(Reply(name, session, ni, nr)) && FloatFree(Final(nr))
    ensures LastFrames(ccm, key, name, session, ni, nr) ==
      [SealedFrame(ccm, key, ni, EMPTY_HEADER, Reply(name, session, ni, nr)),
       SealedFrame(ccm, key, nr, EMPTY_HEADER, Final(nr))]
  {
    HonestPrints([], name, session, ni, nr);
    HonestPrints([], [], [], nr, nr);
    hide Message, SealedFrame;
  }

  /** How the first two messages end, and how many frames have been written by then. */
  function Introduced(fs: seq<Text>, iConfirms: bool, rConfirms: bool): (Outcome, nat)
    requires |fs| >= 2
  {
    if Long(fs[0]) then (Oversize, 1)
    else if !iConfirms then (Refused, 1)
    else if Long(fs[1]) then (Oversize, 2)
    else if !rConfirms then (Refused, 2)
    else (Established, 2)
  }

  /** How the last two messages end. */
  function Concluded(fs: seq<Text>): (Outcome, nat)
    requires |fs| == 2
  {
    if Long(fs[0]) then (Oversize, 1) else if Long(fs[1]) then (Oversize, 2) else (Established, 2)
  }

  /** How the whole handshake ends. */
  function HonestOutcome(fs: seq<Text>, iConfirms: bool, rConfirms: bool): (r: (Outcome, nat))
    requires |fs| == 4
    ensures r.1 <= 4
    ensures r.0 == Established <==> iConfirms && rConfirms && forall k :: 0 <= k < 4 ==> !Long(fs[k])
  {
    var (out, n) := Introduced(fs, iConfirms, rConfirms);
    if out != Established then (out, n) else
      var (out', n') := Concluded(fs[2..]);
      (out', 2 + n')
  }

  lemma OutcomeSplits(first: seq<Text>, last: seq<Text>, iConfirms: bool, rConfirms: bool)
    requires |first| == 2 && |last| == 2
    ensures var fs := first + last;
      var (out, n) := Introduced(first, iConfirms, rConfirms);
      var (out', n') := Concluded(last);
      && n <= 2 && n' <= 2
      && (out != Established ==> HonestOutcome(fs, iConfirms, rConfirms) == (out, n) && fs[..n] == first[..n])
      && (out == Established ==>
            HonestOutcome(fs, iConfirms, rConfirms) == (out', 2 + n') && fs[..2 + n'] == first[..n] + last[..n'])
  {
    hide Long;
    assert (first + last)[2..] == last;
  }

  /** Messages one and two: each side learns the other's key, and the receiver who the initiator is. */
  method Introduce(r: CryptState, i: CryptState, n0: Nonce, ni: Nonce, rConfirms: Text -> bool, iConfirms: Text -> bool)
    returns (out: Outcome, frames: seq<Text>)
    requires r != i && r.suite == i.suite && Works(r.suite) && Usable(i.me) && |r.suite.pub(i.me.key)| < TWO64
    modifies r, i
    ensures var fs := FirstFrames(r.suite, old(r.me), old(i.me), n0, ni);
      var (end, n) := Introduced(fs, iConfirms(r.suite.pub(old(r.me.key))), rConfirms(r.suite.pub(old(i.me.key))));
      out == end && frames == fs[..n]
    ensures out == Established ==>
        && r.shared == i.shared == r.suite.agree(old(r.me.key), r.suite.pub(old(i.me.key)))
        && r.me == old(r.me).(nonce := Inc(n0)) && i.me == old(i.me).(nonce := ni)
        && r.them == old(r.them).(key := r.suite.pub(i.me.key), nonce := ni, session := i.me.session, name := i.me.name)
  {
    hide Message, Sealed, Carried, SharedKeyStep, ReceiverStep;
    hide ParseSeq, Canonical, WellFormed, Document, Correct, Works, Inc, FirstFrames;
    WorksMeans(r.suite, r.me.key, i.me.key);
    ghost var fs := FirstFrames(r.suite, r.me, i.me, n0, ni);
    FirstFramesAre(r.suite, r.me, i.me, n0, ni);
    var pubR, pubI := r.suite.pub(r.me.key), i.suite.pub(i.me.key);
    ghost var key := r.suite.agree(r.me.key, pubI);
    IdentIsDocument(i.me.name, i.me.session, ni);
    KeyHeaderIsDocument(pubI);

    var m1 := r.ReceiverStart(n0);
    HelloArrives(n0, pubR);
    frames := [[] + Canonical(m1)];
    if !Fits([], m1) { return Oversize, frames; }
    var c1 := Carried([], m1).value;

    HelloStep(i.suite, i.State(), n0, pubR, iConfirms);
    var h2, m2 := i.InitiatorStart(c1.header, ni, iConfirms);
    if m2.None? { return Refused, frames; }
    SealedArrives(r.suite.ccm, key, n0, KeyHeader(pubI), Ident(i.me.name, i.me.session, ni));
    frames := frames + [h2 + Canonical(m2.value)];
    if !Fits(h2, m2.value) { return Oversize, frames; }
    var c2 := Carried(h2, m2.value).value;

    IdentStep(r.suite, r.State(), pubI, i.me.name, i.me.session, ni, rConfirms);
    var ok := r.ReceiverProcess(c2.hbuf, c2.body, rConfirms);
    out := if ok then Established else Refused;
    assert fs[..2] == fs;
  }

  /** Messages three and four: each side shows the other's nonce back, and the session keys take over. */
  method Conclude(r: CryptState, i: CryptState, nr: Nonce) returns (out: Outcome, frames: seq<Text>, matched: bool)
    requires r != i && r.suite == i.suite && Works(r.suite) && Usable(r.me)
    requires r.shared == i.shared && r.them.nonce == i.me.nonce
    modifies r, i
    ensures var fs := LastFrames(r.suite.ccm, old(r.shared), old(r.me.name), old(r.me.session), old(r.them.nonce), nr);
      var (end, n) := Concluded(fs);
      out == end && frames == fs[..n]
    ensures out == Established ==>
      && matched
      && r.me == old(r.me).(nonce := Inc(nr), skey := old(r.me.session), session := [])
      && i.me == old(i.me).(nonce := Inc(old(i.me.nonce)), skey := old(i.me.session), session := [])
      && r.them == old(r.them).(nonce := Inc(old(r.them.nonce)), skey := old(r.them.session), session := [])
      && i.them == old(i.them).(name := r.me.name, nonce := Inc(nr), skey := old(r.me.session), session := [])
  {
    hide Message, Sealed, Carried, InitiatorStep, DoneStep, Unsealed, ReturnedNonce;
    hide ParseSeq, Canonical, WellFormed, Document, Correct, Works, Inc, LastFrames;
    WorksMeans(r.suite, [], []);
    ghost var fs := LastFrames(r.suite.ccm, r.shared, r.me.name, r.me.session, r.them.nonce, nr);
    LastFramesAre(r.suite.ccm, r.shared, r.me.name, r.me.session, r.them.nonce, nr);
    matched := false;
    ghost var ccm, key, ni := r.suite.ccm, r.shared, i.me.nonce;
    ReplyIsDocument(r.me.name, r.me.session, ni, nr);
    FinalIsDocument(nr);
    EmptyHeader();
    var h3, m3 := r.ReceiverSendFinal(nr);
    SealedArrives(ccm, key, ni, NO_FIELDS, Reply(r.me.name, r.me.session, ni, nr));
    frames := [h3 + Canonical(m3)];
    if !Fits(h3, m3) { return Oversize, frames, matched; }
    var c3 := Carried(h3, m3).value;

    ReplyStep(i.suite, i.State(), h3, r.me.name, r.me.session, ni, nr);
    var ok;
    ok, matched := i.InitiatorProcess(c3.hbuf, c3.body);
    assert ok;
    var h4, m4 := i.InitiatorSendFinal();
    SealedArrives(ccm, key, nr, NO_FIELDS, Final(nr));
    frames := frames + [h4 + Canonical(m4)];
    if !Fits(h4, m4) { return Oversize, frames, matched; }
    var c4 := Carried(h4, m4).value;

    FinalStep(r.suite, r.State(), h4);
    ok := r.ReceiverDone(c4.hbuf, c4.body);
    assert ok && fs[..2] == fs;
    out := Established;
  }

  /**
   An honest run of the four messages through the wire. It is established exactly if both sides
   confirm the other's key and no frame outgrows its two length bytes, and otherwise ends at the first
   of these that fails; the frames written are those of the honest messages. Once established, both
   returned nonces match, the session keys are crosswise equal and the counters start in step.
   */
  method Establish(r: CryptState, i: CryptState, n0: Nonce, ni: Nonce, nr: Nonce,
                   rConfirms: Text -> bool, iConfirms: Text -> bool)
    returns (out: Outcome, frames: seq<Text>, matched: bool)
    requires r != i && r.suite == i.suite && Works(r.suite) && Usable(r.me) && Usable(i.me)
    requires |r.suite.pub(i.me.key)| < TWO64
    modifies r, i
    ensures var fs := HonestFrames(r.suite, old(r.me), old(i.me), n0, ni, nr);
      var (end, n) := HonestOutcome(fs, iConfirms(r.suite.pub(old(r.me.key))), rConfirms(r.suite.pub(old(i.me.key))));
      out == end && frames == fs[..n]
    ensures out == Established ==>
        && matched
        && r.them.name == old(i.me.name) && i.them.name == old(r.me.name)
        && r.me.skey == i.them.skey == old(r.me.session) && i.me.skey == r.them.skey == old(i.me.session)
        && r.me.nonce == i.them.nonce == Inc(nr) && i.me.nonce == r.them.nonce == Inc(ni)
        && InStep(r.suite.ccm, Fresh(i, r))
  {
    hide Works, InStep, Inc, FirstFrames, LastFrames, Introduced, Concluded, HonestOutcome;
    matched := false;
    ghost var key := r.suite.agree(r.me.key, r.suite.pub(i.me.key));
    OutcomeSplits(FirstFrames(r.suite, r.me, i.me, n0, ni),
                  LastFrames(r.suite.ccm, key, r.me.name, r.me.session, ni, nr),
                  iConfirms(r.suite.pub(r.me.key)), rConfirms(r.suite.pub(i.me.key)));
    out, frames := Introduce(r, i, n0, ni, rConfirms, iConfirms);
    if out == Established {
      var rest;
      out, rest, matched := Conclude(r, i, nr);
      frames := frames + rest;
      FreshIsInStep(r.suite.ccm, r.me.skey, r.me.nonce, i.me.skey, i.me.nonce);
    }
  }

  /** The receiver's key and counter are the sender's: what the handshake leaves behind. */
  ghost predicate Agree(a: CryptState, b: CryptState)
    reads a, b
  {
    a.suite == b.suite && a.them.skey == b.me.skey && a.them.nonce == b.me.nonce
  }

  /**
   After the handshake: any number of messages from one side to the other, through the bytes of
   their frames. Each arrives as the payload that was sent, and the two sides stay in agreement; the
   sequence stops exactly at the first frame too long for its length bytes.
   */
  method Converse(a: CryptState, b: CryptState, messages: seq<Letter>) returns (got: seq<Tree>, oversize: bool)
    requires a != b && Agree(a, b) && Works(a.suite)
    requires forall i :: 0 <= i < |messages| ==> Writable(messages[i])
    modifies a`them, b`me
    ensures |got| <= |messages| && forall i :: 0 <= i < |got| ==> got[i] == messages[i].1
    ensures oversize <==> |got| < |messages|
    ensures forall k :: 0 <= k < |messages| && k <= |got| ==>
      (Long(LetterFrame(a.suite.ccm, old(a.them.skey), Advance(old(a.them.nonce), k), messages[k])) <==> k == |got|)
    ensures !oversize ==> Agree(a, b)
  {
    hide Sealed, Unsealed, Carried, Canonical, Document, Works, Inc, Advance;
    got, oversize := [], false;
    WorksMeans(a.suite, [], []);
    AdvanceNone(a.them.nonce);
    while |got| < |messages|
      invariant |got| <= |messages| && Agree(a, b) && !oversize
      invariant forall i :: 0 <= i < |got| ==> got[i] == messages[i].1
      invariant a.them.skey == old(a.them.skey) && a.them.nonce == Advance(old(a.them.nonce), |got|)
      invariant forall k :: 0 <= k < |got| ==>
        !Long(LetterFrame(a.suite.ccm, old(a.them.skey), Advance(old(a.them.nonce), k), messages[k]))
    {
      var m := messages[|got|];
      assert Writable(m);
      AdvanceInc(old(a.them.nonce), |got|);
      SealedArrives(a.suite.ccm, a.them.skey, a.them.nonce, m.0, m.1);
      SealedReads(a.suite.ccm, a.them.skey, a.them.nonce, Canonical(m.0), m.1);
      var hbuf, msg := a.PeerSend(m.0, m.1);
      if !Fits(hbuf, msg) { return got, true; }
      var frame := Carried(hbuf, msg).value;
      var inside := b.PeerRecv(frame);
      got := got + [inside.value];
    }
  }

  lemma SealedReads(ccm: Ccm, key: Text, n: Nonce, header: Text, payload: Tree)
    requires FloatFree(payload)
    ensures var e := Sealed(ccm, key, n, header, payload); e.Node? && TwoBlobs(e) && e.name == Some(ENV_MSG)
  {
    var p := Seal(ccm, key, n, header, Canonical(payload));
    EnvelopeIsSealed(p.cipher, p.tag);
    EnvelopeReading(Envelope(p.cipher, p.tag));
    hide ReadEnvelope, TwoBlobs;
  }
}
