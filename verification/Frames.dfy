/**
 Length-prefixed frames: FrameSource_send and FrameSource_recv on the hub, and the mendicant's
 readn, readframe and readnodes over a socket whose reads come up short, are interrupted or fail.
 */
module Frames {
  import opened Bytes
  import opened Stackish
  import opened RoundTrip

  const TWO16: nat := 0x1_0000

  /** htons of a value cut to 16 bits, as two bytes on the wire. */
  function Htons(n: nat): Text { [n / 256 % 256, n % 256] }

  function Ntohs(a: byte, b: byte): nat { a * 256 + b }

  lemma LengthField(n: nat)
    ensures Ntohs(Htons(n)[0], Htons(n)[1]) == n % TWO16
    ensures Ntohs(Htons(n)[0], Htons(n)[1]) == n <==> n < TWO16
  {
    var q := n / 256;
    assert n == TWO16 * (q / 256) + (q % 256 * 256 + n % 256);
    assert 0 <= q % 256 * 256 + n % 256 < TWO16;
  }

  /** A frame on the wire. */
  function Wire(data: Text): Text { Htons(|data|) + data }

  /** The length comes first, its high byte before its low one. */
  lemma NetworkOrder(data: Text, hi: byte, lo: byte)
    ensures |data| == 256 * hi + lo ==> Wire(data) == [hi, lo] + data
    ensures Ntohs(hi, lo) == 256 * hi + lo
  {
    if |data| == 256 * hi + lo {
      assert |data| / 256 == hi && |data| % 256 == lo;
    }
  }

  datatype Taken = Taken(data: Text, rest: Text) | Short | ZeroLength

  /** Take one frame off the front of the input; Short when the peer closed too early. */
  function TakeFrame(input: Text): Taken {
    if |input| < 2 then Short else
      var n := Ntohs(input[0], input[1]);
      if n == 0 then ZeroLength
      else if |input| < 2 + n then Short
      else Taken(input[2..2 + n], input[2 + n..])
  }

  lemma TakeFrameUndoesWire(data: Text, rest: Text)
    ensures 0 < |data| < TWO16 ==> TakeFrame(Wire(data) + rest) == Taken(data, rest)
  {
    LengthField(|data|);
    var input := Wire(data) + rest;
    if 0 < |data| < TWO16 {
      assert input[2..2 + |data|] == data && input[2 + |data|..] == rest;
    }
  }

  // ---------------------------------------------------------------- the hub's side

  datatype Received = Received(header: Tree, hbuf: Text, body: Tree, trailing: bool) | Rejected | Crashed

  /**
   FrameSource_recv on a complete frame: a header, the bytes it was parsed from, and a body if
   anything is left. Trailing bytes are reported, but the body is returned all the same.
   */
  function Unpack(data: Text): Received {
    match ParseSeq(data, 0)
    case Aborted => Crashed
    case Failed(_) => Rejected
    case Parsed(h, from) =>
      if h.Nil? then Rejected
      else if from < |data| then
        (match ParseSeq(data, from)
         case Aborted => Crashed
         case Failed(_) => Rejected
         case Parsed(b, end) => if b.Nil? then Rejected else Received(h, data[..from], b, end != |data|))
      else Received(h, if from <= |data| then data[..from] else data, Nil, from != |data|)
  }

  /** A document with the newline Node_bstr ends it with, or without, as Node_catbstr leaves it. */
  function Written(d: Tree, newline: bool): Text
    requires FloatFree(d)
  {
    if newline then Canonical(d) else Print(d)
  }

  /**
   A header and a body, each written by either printer, come apart again into the same trees and
   the byte-exact header text, with nothing left over.
   */
  lemma UnpackUndoesPack(h: Tree, hnl: bool, b: Tree, bnl: bool)
    requires Document(h) && Document(b)
    ensures Unpack(Written(h, hnl) + Written(b, bnl)) == Received(h, Written(h, hnl), b, false)
  {
    hide ParseSeq, Written, Document, Unpack;
    var ht, bt := Written(h, hnl), Written(b, bnl);
    assert [] + ht + bt == ht + bt && ht + bt + [] == ht + bt;
    assert (ht + bt)[..|ht|] == ht;
    WrittenEdges(h, hnl);
    WrittenEdges(b, bnl);
    ParseWritten([], h, hnl, bt);
    ParseWritten(ht, b, bnl, []);
    UnpackTwo(ht + bt, h, |ht|, b);
  }

  lemma WrittenEdges(d: Tree, newline: bool)
    requires Document(d)
    ensures Written(d, newline) != [] && EndsBlank(Written(d, newline)) && Written(d, newline)[0] == OPEN && d.Node?
  {
    hide Print;
    DocumentEdges(d);
  }

  lemma ParseWritten(pre: Text, d: Tree, newline: bool, rest: Text)
    requires Document(d) && (rest != [] ==> EndsBlank(rest) && rest[0] == OPEN)
    ensures ParseSeq(pre + Written(d, newline) + rest, |pre|) == Parsed(d, |pre| + |Written(d, newline)|)
  {
    hide ParseSeq, Print;
    ParseNext(pre, d, newline, rest);
  }

  /** What two complete parses in a row make of a frame. */
  lemma UnpackTwo(data: Text, h: Tree, m: nat, b: Tree)
    requires m < |data| && h.Node? && b.Node?
    requires ParseSeq(data, 0) == Parsed(h, m) && ParseSeq(data, m) == Parsed(b, |data|)
    ensures Unpack(data) == Received(h, data[..m], b, false)
  {
    hide ParseSeq;
  }

  /** The receiver's first message is a body with an empty header: it arrives as the header. */
  lemma UnpackLoneDocument(b: Tree, bnl: bool)
    requires Document(b)
    ensures Unpack([] + Written(b, bnl)) == Received(b, Written(b, bnl), Nil, false)
  {
    hide ParseSeq, Print;
    var bt := Written(b, bnl);
    assert [] + bt + [] == bt == [] + bt;
    ParseWritten([], b, bnl, []);
    hide Written;
    assert bt[..|bt|] == bt;
  }

  /** FrameSource_send, then FrameSource_recv at the other end of the wire. */
  lemma SendThenRecv(h: Tree, b: Tree, rest: Text)
    requires Document(h) && Document(b)
    requires |Canonical(h)| + |Canonical(b)| < TWO16
    ensures var data := Canonical(h) + Canonical(b);
      TakeFrame(Wire(data) + rest) == Taken(data, rest) && Unpack(data) == Received(h, Canonical(h), b, false)
  {
    hide ParseSeq, Unpack;
    TakeFrameUndoesWire(Canonical(h) + Canonical(b), rest);
    UnpackUndoesPack(h, true, b, true);
  }

  // ---------------------------------------------------------------- the mendicant's side

  /** How a read(2) call turns out: interrupted by a signal, failing, or limited to `k + 1` bytes. */
  datatype Event = Interrupted | Failing | Chunk(k: nat)

  function Min(a: nat, b: nat): nat { if a < b then a else b }

  /**
   How readn ends: with every byte; with every byte but errno left set by a signal; at the peer's close; on an
   error.
   */
  datatype Ending = Whole | Signalled | Closed | Broken

  /** readn's reads: how they end, how many of the `avail` bytes they take, and the events they leave. */
  function Reads(events: seq<Event>, avail: nat, len: nat, errno: bool): (r: (Ending, nat, seq<Event>))
    ensures r.1 <= avail && r.1 <= len && (r.0 in {Whole, Signalled} <==> r.1 == len)
    decreases |events|
  {
    if len == 0 then (if errno then Signalled else Whole, 0, events)
    else if events == [] then
      if avail < len then (Closed, avail, []) else (if errno then Signalled else Whole, len, [])
    else match events[0]
      case Interrupted => Reads(events[1..], avail, len, true)
      case Failing => (Broken, 0, events[1..])
      case Chunk(k) =>
        var n := Min(Min(k + 1, len), avail);
        if n == 0 then (Closed, 0, events[1..]) else
          var (end, took, left) := Reads(events[1..], avail - n, len - n, errno);
          (end, took + n, left)
  }

  /** The events left by reads that take `len` bytes with no signal and no error on the way; None if there is one. */
  function Smoothly(events: seq<Event>, len: nat): Option<seq<Event>>
    decreases |events|
  {
    if len == 0 || events == [] then Some(events)
    else if !events[0].Chunk? then None
    else Smoothly(events[1..], len - Min(events[0].k + 1, len))
  }

  /** readn succeeds exactly when the bytes are there, errno was clear, and no read is interrupted or fails. */
  lemma {:induction false} WholeMeans(events: seq<Event>, avail: nat, len: nat, errno: bool)
    ensures Reads(events, avail, len, errno).0 == Whole <==> !errno && len <= avail && Smoothly(events, len).Some?
    ensures Reads(events, avail, len, errno).0 == Whole ==>
      Reads(events, avail, len, errno).2 == Smoothly(events, len).value
    decreases |events|
  {
    if len == 0 || events == [] {
    } else {
      match events[0] {
        case Interrupted => SignalStays(events[1..], avail, len);
        case Failing =>
        case Chunk(k) =>
          var n := Min(Min(k + 1, len), avail);
          if n > 0 { WholeMeans(events[1..], avail - n, len - n, errno); }
      }
    }
  }

  /** errno, once set, keeps readn from returning all its bytes. */
  lemma {:induction false} SignalStays(events: seq<Event>, avail: nat, len: nat)
    ensures Reads(events, avail, len, true).0 != Whole
    decreases |events|
  {
    if len == 0 || events == [] {
    } else {
      match events[0] {
        case Interrupted => SignalStays(events[1..], avail, len);
        case Failing =>
        case Chunk(k) =>
          var n := Min(Min(k + 1, len), avail);
          if n > 0 { SignalStays(events[1..], avail - n, len - n); }
      }
    }
  }

  /** The events left by reading a frame of `n` bytes without a signal or an error. */
  function PastFrame(events: seq<Event>, n: nat): Option<seq<Event>> {
    var e := Smoothly(events, 2);
    if e.None? then None else Smoothly(e.value, n)
  }

  function PastFrames(events: seq<Event>, frames: seq<Text>): Option<seq<Event>>
    decreases |frames|
  {
    if frames == [] then Some(events) else
      var e := PastFrame(events, |frames[0]|);
      if e.None? then None else PastFrames(e.value, frames[1..])
  }

  /** What readframe comes to. `Dead`: the process has stopped at one of readn's assertions. */
  datatype FrameRead = Arrived(data: Text) | Refused | Dead

  datatype Errno = Clear | Eintr | Eio

  /** A socket: the bytes the peer has sent and closed behind, how the coming reads turn out, and errno. */
  class Socket {
    var pending: Text
    var events: seq<Event>
    var errno: Errno

    constructor (pending: Text, events: seq<Event>)
      ensures this.pending == pending && this.events == events && errno == Clear
    {
      this.pending, this.events, errno := pending, events, Clear;
    }

    /** read(2). */
    method Read(n: nat) returns (rc: int, got: Text)
      requires n > 0
      modifies this
      ensures events == if old(events) == [] then [] else old(events)[1..]
      ensures old(events) != [] && !old(events)[0].Chunk? ==>
        rc == -1 && pending == old(pending) && got == []
        && errno == if old(events)[0] == Interrupted then Eintr else Eio
      ensures old(events) == [] || old(events)[0].Chunk? ==>
        && rc == Min(if old(events) == [] then n else Min(old(events)[0].k + 1, n), |old(pending)|)
        && got == old(pending)[..rc] && pending == old(pending)[rc..] && errno == old(errno)
    {
      var limit := n;
      if events != [] {
        var e := events[0];
        events := events[1..];
        if !e.Chunk? {
          errno := if e == Interrupted then Eintr else Eio;
          return -1, [];
        }
        limit := Min(e.k + 1, n);
      }
      rc := Min(limit, |pending|);
      got := pending[..rc];
      pending := pending[rc..];
    }

    /** readn. A read interrupted on the way leaves errno set, which the assertion at the end does not let pass. */
    method ReadN(len: nat) returns (n: int, data: Text, dead: bool)
      requires len > 0
      modifies this
      ensures var (end, took, left) := Reads(old(events), |old(pending)|, len, old(errno) != Clear);
        && events == left && data == old(pending)[..took] && pending == old(pending)[took..]
        && dead == (end == Signalled) && (n == -1 <==> end == Broken) && (end != Broken ==> n == took)
        && (end == Whole ==> errno == Clear)
    {
      var cnt := len;
      data := [];
      ghost var (end, took, left) := Reads(events, |pending|, len, errno != Clear);
      while cnt > 0
        invariant 0 <= cnt <= len && |data| == len - cnt <= |old(pending)|
        invariant data == old(pending)[..len - cnt] && pending == old(pending)[len - cnt..]
        invariant Reads(events, |pending|, cnt, errno != Clear) == (end, took - (len - cnt), left)
        decreases |events|, cnt
      {
        var rc, got := Read(cnt);
        if rc < 0 {
          if errno == Eintr { continue; }
          return -1, data, false;
        }
        if rc == 0 { return len - cnt, data, false; }
        data := data + got;
        cnt := cnt - rc;
      }
      n, dead := len, errno != Clear;
    }

    /** readframe. */
    method ReadFrame() returns (r: FrameRead)
      modifies this
      ensures match TakeFrame(old(pending))
        case Taken(d, rest) =>
          var left := PastFrame(old(events), |d|);
          if old(errno) != Clear || left.None? then !r.Arrived?
          else r == Arrived(d) && pending == rest && events == left.value && errno == Clear
        case _ => !r.Arrived?
      ensures r == Refused ==> errno == Clear
      ensures r == Dead <==>
        var (end, took, left) := Reads(old(events), |old(pending)|, 2, old(errno) != Clear);
        end == Signalled ||
        (end == Whole &&
         var n := Ntohs(old(pending)[0], old(pending)[1]);
         n == 0 || Reads(left, |old(pending)| - 2, n, false).0 == Signalled)
    {
      hide Reads;
      WholeMeans(events, |pending|, 2, errno != Clear);
      var n, head, dead := ReadN(2);
      if dead { return Dead; }
      if n != 2 {
        errno := Clear;
        return Refused;
      }
      var len := Ntohs(head[0], head[1]);
      if len == 0 { return Dead; }
      WholeMeans(events, |pending|, len, errno != Clear);
      var got, data;
      got, data, dead := ReadN(len);
      if dead { return Dead; }
      if got != len {
        errno := Clear;
        return Refused;
      }
      r := Arrived(data);
    }

    /**
     Reading one frame after the other recovers every frame the peer wrote, in order, exactly when
     no read on the way is interrupted or fails; otherwise only the frames before that read.
     */
    method ReadFrames(ghost sent: seq<Text>, ghost rest: Text, count: nat) returns (got: seq<Text>, ok: bool)
      requires count == |sent| && (forall i :: 0 <= i < |sent| ==> 0 < |sent[i]| < TWO16)
      requires pending == WireAll(sent) + rest
      modifies this
      ensures ok <==> sent == [] || (old(errno) == Clear && PastFrames(old(events), sent).Some?)
      ensures ok ==> got == sent && pending == rest && PastFrames(old(events), sent) == Some(events)
      ensures !ok ==> got < sent
    {
      hide Htons, Ntohs, Wire, TakeFrame, Reads, PastFrame;
      got, ok := [], true;
      while |got| < count
        invariant |got| <= count && got == sent[..|got|] && pending == WireAll(sent[|got|..]) + rest
        invariant PastFrames(events, sent[|got|..]) == PastFrames(old(events), sent)
        invariant errno == old(errno) && (|got| > 0 ==> errno == Clear)
      {
        ghost var k := |got|;
        assert sent[k..][1..] == sent[k + 1..];
        assert WireAll(sent[k..]) + rest == Wire(sent[k]) + (WireAll(sent[k + 1..]) + rest);
        TakeFrameUndoesWire(sent[k], WireAll(sent[k + 1..]) + rest);
        var r := ReadFrame();
        if !r.Arrived? { return got, false; }
        got := got + [r.data];
      }
      assert sent[|sent|..] == [];
    }
  }

  /** A single signal while a frame is being read stops the process, although every byte is there. */
  method OneSignal(data: Text) returns (r: FrameRead)
    requires 0 < |data| < TWO16
    ensures r == Dead
  {
    var s := new Socket(Wire(data), [Interrupted]);
    r := s.ReadFrame();
  }

  function WireAll(frames: seq<Text>): Text {
    if frames == [] then [] else Wire(frames[0]) + WireAll(frames[1..])
  }
}
