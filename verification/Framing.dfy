/** Length-prefixed frames on a TCP connection (backend/network/connection.py:17-50) and the inbound
    loop that reads them (backend/network/connection.py:140-145). msgpack is a parameter under the
    contract that unpacking undoes packing. */
module Framing {
  import opened Seqs

  const STREAM_LIMIT := 8 * 1024 * 1024

  datatype MsgPack<!M> = MsgPack(pack: M -> Bytes, unpack: Bytes -> Option<M>)

  ghost predicate Contract<M(!new)>(p: MsgPack<M>) {
    forall m: M :: p.unpack(p.pack(m)) == Some(m)
  }

  // ---------------------------------------------------------------- the header

  /** `n.to_bytes(4, 'big')` */
  function Header(n: nat): (h: Bytes)
    requires n < 0x1_0000_0000
    ensures |h| == 4 && forall i :: 0 <= i < 4 ==> 0 <= h[i] < 256
  {
    [n / 0x100_0000, n / 0x1_0000 % 256, n / 0x100 % 256, n % 256]
  }

  /** `int.from_bytes(h, 'big')` */
  function Length(h: Bytes): int
    requires |h| == 4
  {
    ((h[0] * 256 + h[1]) * 256 + h[2]) * 256 + h[3]
  }

  lemma Split(n: nat, d: nat)
    requires d > 0
    ensures n == n / d * d + n % d
  {
  }

  lemma HeaderRoundTrip(n: nat)
    requires n < 0x1_0000_0000
    ensures Length(Header(n)) == n
  {
    var a := n / 0x100;
    var b := n / 0x1_0000;
    var c := n / 0x100_0000;
    Split(n, 0x100);
    Split(a, 0x100);
    Split(b, 0x100);
    assert a / 0x100 == b && b / 0x100 == c;
  }

  /** The first difference of two byte strings decides. */
  ghost predicate Before(a: Bytes, b: Bytes) {
    exists i :: 0 <= i < |a| && i < |b| && a[i] < b[i] && a[..i] == b[..i]
  }

  lemma HeaderParts(n: nat)
    requires n < 0x1_0000_0000
    ensures var h := Header(n);
            n == ((h[0] * 256 + h[1]) * 256 + h[2]) * 256 + h[3] && forall i :: 0 <= i < 4 ==> 0 <= h[i] < 256
  {
    HeaderRoundTrip(n);
  }

  /** The header is big-endian: headers are in the order of the lengths, byte by byte from the left. */
  lemma HeadersInOrder(m: nat, n: nat)
    requires m < 0x1_0000_0000 && n < 0x1_0000_0000
    ensures Before(Header(m), Header(n)) <==> m < n
  {
    var g, h := Header(m), Header(n);
    HeaderParts(m);
    HeaderParts(n);
    if m < n {
      var i := if g[0] < h[0] then 0 else if g[1] < h[1] then 1 else if g[2] < h[2] then 2 else 3;
      assert g[i] < h[i] && g[..i] == h[..i];
    }
    if i :| 0 <= i < 4 && g[i] < h[i] && g[..i] == h[..i] {
      SmallerFromLeft(g, h, i);
    }
  }

  lemma SmallerFromLeft(g: Bytes, h: Bytes, i: nat)
    requires |g| == |h| == 4 && i < 4 && g[i] < h[i] && g[..i] == h[..i]
    requires forall k :: 0 <= k < 4 ==> 0 <= g[k] < 256 && 0 <= h[k] < 256
    ensures Length(g) < Length(h)
  {
    assert forall k :: 0 <= k < i ==> g[k] == g[..i][k] && h[k] == h[..i][k];
  }

  function Frame<M>(p: MsgPack<M>, m: M): Bytes
    requires |p.pack(m)| < 0x1_0000_0000
  {
    Header(|p.pack(m)|) + p.pack(m)
  }

  // ---------------------------------------------------------------- one message

  /** A received message, or None, with the bytes left unread. */
  datatype Received<M> = Received(message: Option<M>, rest: Bytes)

  /** `receive` on a stream that ends after `stream`: a short read, an oversized length and a payload that
      does not unpack all give None. */
  function ReceiveOne<M>(p: MsgPack<M>, stream: Bytes): Received<M> {
    if |stream| < 4 then Received(None, [])
    else
      var length := Length(stream[..4]);
      if length > STREAM_LIMIT then Received(None, stream[4..])
      else if length < 0 || |stream| - 4 < length then Received(None, [])
      else Received(p.unpack(stream[4..4 + length]), stream[4 + length..])
  }

  class PeerConnection<!M> {
    const codec: MsgPack<M>
    var written: Bytes
    var incoming: Bytes

    constructor (codec: MsgPack<M>)
      ensures this.codec == codec && written == [] && incoming == []
    {
      this.codec := codec;
      written, incoming := [], [];
    }

    /** False is the OverflowError of a payload whose length does not fit the header. */
    method Send(m: M) returns (ok: bool)
      modifies this`written
      ensures ok <==> |codec.pack(m)| < 0x1_0000_0000
      ensures written == if ok then old(written) + Frame(codec, m) else old(written)
    {
      var payload := codec.pack(m);
      if |payload| >= 0x1_0000_0000 {
        return false;
      }
      var header := Header(|payload|);
      written := written + (header + payload);
      return true;
    }

    method Receive() returns (m: Option<M>)
      modifies this`incoming
      ensures ReceiveOne(codec, old(incoming)) == Received(m, incoming)
    {
      if |incoming| < 4 {
        incoming := [];
        return None;
      }
      var header := incoming[..4];
      incoming := incoming[4..];
      var length := Length(header);
      if length > STREAM_LIMIT {
        return None;
      }
      if length < 0 || |incoming| < length {
        incoming := [];
        return None;
      }
      var payload := incoming[..length];
      assert payload == old(incoming)[4..4 + length];
      incoming := incoming[length..];
      assert incoming == old(incoming)[4 + length..];
      return codec.unpack(payload);
    }

    /** The inbound loop: messages until the first None. */
    method ReceiveLoop() returns (messages: seq<M>)
      modifies this`incoming
      ensures messages == ReceiveAll(codec, old(incoming))
    {
      messages := [];
      while true
        invariant ReceiveAll(codec, old(incoming)) == messages + ReceiveAll(codec, incoming)
        decreases |incoming|
      {
        var m := Receive();
        if m.None? {
          break;
        }
        messages := messages + [m.value];
      }
    }
  }

  function ReceiveAll<M>(p: MsgPack<M>, stream: Bytes): seq<M>
    decreases |stream|
  {
    var r := ReceiveOne(p, stream);
    if r.message.None? then [] else [r.message.value] + ReceiveAll(p, r.rest)
  }

  // ---------------------------------------------------------------- a sequence of messages

  predicate Sendable<M>(p: MsgPack<M>, messages: seq<M>) {
    forall i :: 0 <= i < |messages| ==> |p.pack(messages[i])| < 0x1_0000_0000
  }

  /** What sending the messages one after the other writes. */
  function Sent<M>(p: MsgPack<M>, messages: seq<M>): Bytes
    requires Sendable(p, messages)
  {
    if |messages| == 0 then [] else Frame(p, messages[0]) + Sent(p, messages[1..])
  }

  lemma SentNext<M>(p: MsgPack<M>, messages: seq<M>, i: nat)
    requires i < |messages| && Sendable(p, messages[i..])
    ensures |p.pack(messages[i])| < 0x1_0000_0000 && Sendable(p, messages[i + 1..])
    ensures Sent(p, messages[i..]) == Frame(p, messages[i]) + Sent(p, messages[i + 1..])
  {
    assert messages[i..][1..] == messages[i + 1..] && messages[i..][0] == messages[i];
    var rest := messages[i + 1..];
    forall k | 0 <= k < |rest| ensures |p.pack(rest[k])| < 0x1_0000_0000 {
      assert rest[k] == messages[i..][k + 1];
    }
  }

  method SendAll<M>(c: PeerConnection<M>, messages: seq<M>)
    requires Sendable(c.codec, messages)
    modifies c`written
    ensures c.written == old(c.written) + Sent(c.codec, messages)
  {
    assert messages[0..] == messages;
    for i := 0 to |messages|
      invariant Sendable(c.codec, messages[i..])
      invariant c.written + Sent(c.codec, messages[i..]) == old(c.written) + Sent(c.codec, messages)
    {
      ghost var before := c.written;
      SentNext(c.codec, messages, i);
      var ok := c.Send(messages[i]);
      Regroup(before, Frame(c.codec, messages[i]), Sent(c.codec, messages[i + 1..]));
    }
  }

  /** How many messages come before the first one over the limit. */
  function WithinLimit<M>(p: MsgPack<M>, messages: seq<M>): (n: nat)
    ensures n <= |messages|
    ensures n == |messages| <==> forall i :: 0 <= i < |messages| ==> |p.pack(messages[i])| <= STREAM_LIMIT
  {
    if |messages| == 0 || |p.pack(messages[0])| > STREAM_LIMIT then 0 else 1 + WithinLimit(p, messages[1..])
  }

  lemma ReceiveFrame<M(!new)>(p: MsgPack<M>, m: M, rest: Bytes)
    requires Contract(p) && |p.pack(m)| < 0x1_0000_0000
    ensures ReceiveOne(p, Frame(p, m) + rest) ==
            if |p.pack(m)| <= STREAM_LIMIT then Received(Some(m), rest) else Received(None, p.pack(m) + rest)
  {
    var payload, stream := p.pack(m), Frame(p, m) + rest;
    HeaderRoundTrip(|payload|);
    assert stream[..4] == Header(|payload|);
    assert stream[4..] == payload + rest;
    assert stream[4..4 + |payload|] == payload;
    assert stream[4 + |payload|..] == rest;
  }

  lemma FirstThenRest<M>(messages: seq<M>, n: nat)
    requires n < |messages|
    ensures messages[..n + 1] == [messages[0]] + messages[1..][..n]
  {
  }

  /** Sent messages are received as they were, whatever their payload bytes, up to the first one over the
      limit. */
  lemma {:induction false} FramesParse<M(!new)>(p: MsgPack<M>, messages: seq<M>)
    requires Contract(p) && Sendable(p, messages)
    ensures ReceiveAll(p, Sent(p, messages)) == messages[..WithinLimit(p, messages)]
  {
    if |messages| > 0 {
      var rest := messages[1..];
      ReceiveFrame(p, messages[0], Sent(p, rest));
      if |p.pack(messages[0])| <= STREAM_LIMIT {
        FramesParse(p, rest);
        FirstThenRest(messages, WithinLimit(p, rest));
      }
    }
  }

  /** The receiver gets exactly the sent sequence if and only if every message is within the limit. */
  lemma ExactlyTheMessages<M(!new)>(p: MsgPack<M>, messages: seq<M>)
    requires Contract(p) && Sendable(p, messages)
    ensures ReceiveAll(p, Sent(p, messages)) == messages
            <==> forall i :: 0 <= i < |messages| ==> |p.pack(messages[i])| <= STREAM_LIMIT
  {
    FramesParse(p, messages);
    assert messages[..|messages|] == messages;
  }
}
