/**
 krssh's tap on the server's output: binary packets (section 6 of RFC 4253) picked out
 of whatever a single read returned, with uint32 arithmetic that may wrap and a buffer
 that still holds bytes of earlier reads.
 */
module SshPacket {
  import opened Basics
  import opened SshWire

  const MAX_PAYLOAD := 0x4_0000
  const BUFFER_SIZE := 0x4_0000

  /** packetLen - paddingLen - 1, as uint32 computes it. */
  function PayloadLength(b: Bytes): (n: nat)
    requires |b| > 4
  {
    var packetLen: int, paddingLen: int := Uint32(b), b[4];
    (packetLen - paddingLen - 1) % TWO_32
  }

  function ParsePacket(b: Bytes): Option<Bytes> {
    if |b| <= 4 then None
    else
      var payloadLen := PayloadLength(b);
      if payloadLen > MAX_PAYLOAD || payloadLen < 1 || |b| <= (5 + payloadLen) % TWO_32 then None
      else Some(b[5..5 + payloadLen])
  }

  /** A packet is found exactly when its lengths make sense as plain integers: no wrap-around gets through. */
  lemma PacketFoundIff(b: Bytes)
    ensures ParsePacket(b).Some? <==>
            && |b| > 4
            && 1 <= Uint32(b) - b[4] - 1 <= MAX_PAYLOAD
            && |b| > 5 + (Uint32(b) - b[4] - 1)
    ensures ParsePacket(b).Some? ==> ParsePacket(b).value == b[5..Uint32(b) + 4 - b[4]]
  {
    if |b| > 4 {
      var packetLen: int, paddingLen: int := Uint32(b), b[4];
      var exact := packetLen - paddingLen - 1;
      assert 0 <= exact ==> PayloadLength(b) == exact;
      assert exact < 0 ==> PayloadLength(b) == exact + TWO_32 > MAX_PAYLOAD;
    }
  }

  /** The packet without its authentication code. */
  function Frame(payload: Bytes, padding: Bytes): Bytes
    requires |padding| < 256
  {
    PutUint32(1 + |payload| + |padding|) + [|padding|] + payload + padding
  }

  /** Framing is inverted exactly when the payload size is admissible and some byte follows the payload. */
  lemma FrameParsesIff(payload: Bytes, padding: Bytes, rest: Bytes)
    requires |padding| < 256 && 1 + |payload| + |padding| < TWO_32
    ensures ParsePacket(Frame(payload, padding) + rest) ==
            if 1 <= |payload| <= MAX_PAYLOAD && |padding| + |rest| >= 1 then Some(payload) else None
  {
    var b := Frame(payload, padding) + rest;
    var n := 1 + |payload| + |padding|;
    PutUint32Inverse(n);
    assert b[..4] == PutUint32(n);
    assert Uint32(b) == n && b[4] == |padding|;
    assert b[5..5 + |payload|] == payload;
    PacketFoundIff(b);
  }

  /** Only the header and the payload are looked at. */
  lemma RestIsIrrelevant(b: Bytes, c: Bytes)
    requires ParsePacket(b).Some?
    requires var end := 5 + |ParsePacket(b).value|; |c| > end && |b| > end && c[..end] == b[..end]
    ensures ParsePacket(c) == ParsePacket(b)
  {
    var end := 5 + |ParsePacket(b).value|;
    PacketFoundIff(b);
    PacketFoundIff(c);
    assert forall i :: 0 <= i < 5 ==> c[..end][i] == b[..end][i];
    assert Uint32(c) == Uint32(b) && c[4] == b[4];
    assert c[5..end] == c[..end][5..] && b[5..end] == b[..end][5..];
  }

  // ---------- the tap ----------

  /** The buffer after a read: new bytes in front, old ones behind. */
  function Overlaid(buf: Bytes, read: Bytes): Bytes
    requires |read| <= |buf|
  {
    read + buf[|read|..]
  }

  function EmptyBuffer(): (r: Bytes)
    ensures |r| == BUFFER_SIZE
  {
    seq(BUFFER_SIZE, _ => 0)
  }

  /** The reused buffer, the non-empty reads so far, what was looked at for a reply, and what was passed on. */
  datatype Tap = Tap(buf: Bytes, packetNum: nat, packets: seq<Option<Bytes>>, stdout: Bytes)

  /** One attempt per non-empty read, except the first. */
  function Tapped(t: Tap, chunk: Bytes): (r: Tap)
    requires |t.buf| == BUFFER_SIZE && |chunk| <= BUFFER_SIZE
    ensures |r.buf| == BUFFER_SIZE
  {
    if chunk == [] then t
    else
      var buf := Overlaid(t.buf, chunk);
      Tap(buf, t.packetNum + 1, if t.packetNum >= 1 then t.packets + [ParsePacket(buf)] else t.packets, t.stdout + chunk)
  }

  function TappedAll(chunks: seq<Bytes>): (r: Tap)
    requires forall i :: 0 <= i < |chunks| ==> |chunks[i]| <= BUFFER_SIZE
    ensures |r.buf| == BUFFER_SIZE
    decreases |chunks|
  {
    if chunks == [] then Tap(EmptyBuffer(), 0, [], [])
    else Tapped(TappedAll(chunks[..|chunks| - 1]), chunks[|chunks| - 1])
  }

  /** A read fills the front of the buffer and leaves the rest. */
  method ReadInto(buf: array<Byte>, chunk: Bytes)
    requires |chunk| <= buf.Length
    modifies buf
    ensures buf[..] == Overlaid(old(buf[..]), chunk)
  {
    forall j | 0 <= j < |chunk| { buf[j] := chunk[j]; }
  }

  /** A connection is the list of its reads. */
  method StartRemoteOutputParsing(chunks: seq<Bytes>) returns (packets: seq<Option<Bytes>>, stdout: Bytes)
    requires forall i :: 0 <= i < |chunks| ==> |chunks[i]| <= BUFFER_SIZE
    ensures packets == TappedAll(chunks).packets && stdout == TappedAll(chunks).stdout
  {
    var buf := new Byte[BUFFER_SIZE](_ => 0);
    assert buf[..] == EmptyBuffer();
    var packetNum := 0;
    packets, stdout := [], [];
    var i := 0;
    while i < |chunks|
      invariant 0 <= i <= |chunks| && 0 <= packetNum
      invariant TappedAll(chunks[..i]) == Tap(buf[..], packetNum, packets, stdout)
    {
      TapOne(chunks, i);
      ghost var before := buf[..];
      ReadInto(buf, chunks[i]);
      if |chunks[i]| > 0 {
        packetNum := packetNum + 1;
        if packetNum > 1 {
          packets := packets + [ParsePacket(buf[..])];
        }
        stdout := stdout + chunks[i];
      } else {
        assert buf[..] == before;
      }
      i := i + 1;
    }
    assert chunks[..i] == chunks;
  }

  lemma TapOne(chunks: seq<Bytes>, i: nat)
    requires i < |chunks| && forall k :: 0 <= k < |chunks| ==> |chunks[k]| <= BUFFER_SIZE
    ensures TappedAll(chunks[..i + 1]) == Tapped(TappedAll(chunks[..i]), chunks[i])
  {
    assert chunks[..i + 1][..i] == chunks[..i];
  }

  function Concat(chunks: seq<Bytes>): Bytes
    decreases |chunks|
  {
    if chunks == [] then [] else Concat(chunks[..|chunks| - 1]) + chunks[|chunks| - 1]
  }

  /** Everything that was read is passed on, unchanged and in order. */
  lemma {:induction false} OutputIsUnchanged(chunks: seq<Bytes>)
    requires forall i :: 0 <= i < |chunks| ==> |chunks[i]| <= BUFFER_SIZE
    ensures TappedAll(chunks).stdout == Concat(chunks)
    decreases |chunks|
  {
    if chunks != [] { OutputIsUnchanged(chunks[..|chunks| - 1]); }
  }

  /** A packet read in one piece is found whatever an earlier read left behind it. */
  lemma StaleBytesDoNotMatter(buf: Bytes, payload: Bytes, padding: Bytes, more: Bytes)
    requires |buf| == BUFFER_SIZE && |padding| < 256
    requires |Frame(payload, padding) + more| <= BUFFER_SIZE
    requires 1 <= |payload| && 5 + |payload| < BUFFER_SIZE
    ensures ParsePacket(Overlaid(buf, Frame(payload, padding) + more)) == Some(payload)
  {
    var read := Frame(payload, padding) + more;
    var stale := buf[|read|..];
    assert Overlaid(buf, read) == Frame(payload, padding) + (more + stale);
    FrameParsesIff(payload, padding, more + stale);
  }

  /**
   A read that ends inside the payload is continued with whatever earlier reads left there:
   a payload of the right length is found, and it is the right one only if those bytes agree.
   */
  lemma PartialReadIsCompleted(buf: Bytes, payload: Bytes, padding: Bytes, n: nat)
    requires |buf| == BUFFER_SIZE && |padding| < 256 && 5 <= n <= 5 + |payload| < BUFFER_SIZE && 1 <= |payload|
    requires n <= |Frame(payload, padding)|
    ensures var found := ParsePacket(Overlaid(buf, Frame(payload, padding)[..n]));
            && found == Some(payload[..n - 5] + buf[n..5 + |payload|])
            && (found == Some(payload) <==> buf[n..5 + |payload|] == payload[n - 5..])
  {
    var frame, end := Frame(payload, padding), 5 + |payload|;
    var b := Overlaid(buf, frame[..n]);
    HeaderIsRead(buf, payload, padding, n);
    PacketFoundIff(b);
    assert b[5..end] == frame[..n][5..] + buf[n..end];
    assert frame[5..end] == payload;
    assert frame[..n][5..] == payload[..n - 5];
    assert payload == payload[..n - 5] + payload[n - 5..];
    SameTail(payload[..n - 5], buf[n..end], payload[n - 5..]);
  }

  lemma HeaderIsRead(buf: Bytes, payload: Bytes, padding: Bytes, n: nat)
    requires |buf| == BUFFER_SIZE && |padding| < 256 && 5 <= n <= |Frame(payload, padding)| && n <= BUFFER_SIZE
    requires 1 + |payload| + |padding| < TWO_32
    ensures var b := Overlaid(buf, Frame(payload, padding)[..n]);
            Uint32(b) == 1 + |payload| + |padding| && b[4] == |padding|
  {
    var b := Overlaid(buf, Frame(payload, padding)[..n]);
    PutUint32Inverse(1 + |payload| + |padding|);
    assert b[..4] == PutUint32(1 + |payload| + |padding|);
  }

  lemma SameTail(a: Bytes, b: Bytes, c: Bytes)
    ensures a + b == a + c <==> b == c
  {
    assert (a + b)[|a|..] == b && (a + c)[|a|..] == c;
  }

  datatype Sent = Sent(payload: Bytes, padding: Bytes, more: Bytes)

  predicate Fits(s: Sent) {
    && |s.padding| < 256
    && 1 <= |s.payload| && 5 + |s.payload| < BUFFER_SIZE
    && |Frame(s.payload, s.padding) + s.more| <= BUFFER_SIZE
  }

  function ReadOf(s: Sent): (r: Bytes)
    requires Fits(s)
    ensures 0 < |r| <= BUFFER_SIZE
  {
    Frame(s.payload, s.padding) + s.more
  }

  ghost predicate WholePackets(chunks: seq<Bytes>, sends: seq<Sent>) {
    |chunks| == |sends| && forall i :: 0 <= i < |sends| ==> Fits(sends[i]) && chunks[i] == ReadOf(sends[i])
  }

  /** A read in which `payload` is found, whatever an earlier read left behind it. */
  ghost predicate AlwaysFound(chunk: Bytes, payload: Bytes) {
    0 < |chunk| <= BUFFER_SIZE &&
    forall buf: Bytes :: |buf| == BUFFER_SIZE ==> ParsePacket(Overlaid(buf, chunk)) == Some(payload)
  }

  /** What the tap finds: every payload but the first. */
  function Found(payloads: seq<Bytes>): seq<Option<Bytes>>
    decreases |payloads|
  {
    if |payloads| <= 1 then []
    else Found(payloads[..|payloads| - 1]) + [Some(payloads[|payloads| - 1])]
  }

  lemma {:induction false} FoundAt(payloads: seq<Bytes>)
    ensures |Found(payloads)| == if payloads == [] then 0 else |payloads| - 1
    ensures forall i :: 0 <= i < |Found(payloads)| ==> Found(payloads)[i] == Some(payloads[i + 1])
    decreases |payloads|
  {
    if |payloads| > 1 { FoundAt(payloads[..|payloads| - 1]); }
  }

  lemma {:induction false} AllFound(chunks: seq<Bytes>, payloads: seq<Bytes>)
    requires |chunks| == |payloads|
    requires forall i :: 0 <= i < |chunks| ==> |chunks[i]| <= BUFFER_SIZE
    requires forall i :: 0 <= i < |chunks| ==> AlwaysFound(chunks[i], payloads[i])
    ensures TappedAll(chunks).packetNum == |payloads| && TappedAll(chunks).packets == Found(payloads)
    decreases |chunks|
  {
    if chunks != [] {
      var n := |chunks| - 1;
      AllFound(chunks[..n], payloads[..n]);
      var t := TappedAll(chunks[..n]);
      TapFound(t, chunks[n], payloads[n]);
      assert TappedAll(chunks) == Tapped(t, chunks[n]);
    }
  }

  lemma TapFound(t: Tap, chunk: Bytes, payload: Bytes)
    requires |t.buf| == BUFFER_SIZE && AlwaysFound(chunk, payload)
    ensures var r := Tapped(t, chunk);
            && r.packetNum == t.packetNum + 1
            && r.packets == if t.packetNum >= 1 then t.packets + [Some(payload)] else t.packets
  {
  }

  function PayloadsOf(sends: seq<Sent>): (r: seq<Bytes>)
    ensures |r| == |sends| && forall i :: 0 <= i < |r| ==> r[i] == sends[i].payload
  {
    seq(|sends|, i requires 0 <= i < |sends| => sends[i].payload)
  }

  /** Over a whole connection of reads that each start with a whole packet: all payloads but the first are found. */
  lemma WholePacketsAreFound(chunks: seq<Bytes>, sends: seq<Sent>)
    requires WholePackets(chunks, sends)
    ensures forall i :: 0 <= i < |chunks| ==> |chunks[i]| <= BUFFER_SIZE
    ensures TappedAll(chunks).packetNum == |sends| && TappedAll(chunks).packets == Found(PayloadsOf(sends))
  {
    var payloads := PayloadsOf(sends);
    forall i | 0 <= i < |chunks| ensures |chunks[i]| <= BUFFER_SIZE && AlwaysFound(chunks[i], payloads[i]) {
      assert chunks[i] == ReadOf(sends[i]);
      ReadIsFound(sends[i]);
    }
    AllFound(chunks, payloads);
  }

  lemma ReadIsFound(s: Sent)
    requires Fits(s)
    ensures AlwaysFound(ReadOf(s), s.payload)
  {
    forall buf: Bytes | |buf| == BUFFER_SIZE ensures ParsePacket(Overlaid(buf, ReadOf(s))) == Some(s.payload) {
      StaleBytesDoNotMatter(buf, s.payload, s.padding, s.more);
    }
  }
}
