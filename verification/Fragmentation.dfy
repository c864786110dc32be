/**
 The Bluetooth packet protocol of krbtle/krbtle/Bluetooth.swift: messages are split
 into blocks that count down to zero and put together again per characteristic. A
 block of one byte is a control message and never reaches the reassembly.
 */
module Fragmentation {
  import opened Basics

  // ---------- splitting ----------

  datatype SplitResult = Blocks(blocks: seq<Bytes>) | TooLong

  /** Full blocks in `len` bytes, and what is left over: division without division. */
  function Full(len: nat, size: nat): nat
    requires size > 0
  {
    if len < size then 0 else 1 + Full(len - size, size)
  }

  function Left(len: nat, size: nat): (r: nat)
    requires size > 0
    ensures r < size
  {
    if len < size then len else Left(len - size, size)
  }

  lemma PositiveMultiple(d: int, size: int)
    requires d >= 1 && size >= 0
    ensures d * size >= size
  {
    assert (d - 1) * size >= 0;
  }

  lemma SmallMultiple(d: int, size: int)
    requires -size < d * size < size
    ensures d == 0
  {
    if d >= 1 {
      PositiveMultiple(d, size);
    } else if d <= -1 {
      PositiveMultiple(-d, size);
    }
  }

  lemma DivisionIsUnique(len: nat, size: nat, q: nat, r: nat)
    requires size > 0 && len == q * size + r && r < size
    ensures len / size == q && len % size == r
  {
    var p := len / size;
    assert len == p * size + len % size;
    assert (p - q) * size == p * size - q * size;
    SmallMultiple(p - q, size);
  }

  lemma {:induction false} FullIsQuotient(len: nat, size: nat)
    requires size > 0
    ensures Full(len, size) == len / size && Left(len, size) == len % size
  {
    if len < size {
      DivisionIsUnique(len, size, 0, len);
    } else {
      var rest := len - size;
      FullIsQuotient(rest, size);
      assert rest == (rest / size) * size + rest % size;
      assert (rest / size + 1) * size == (rest / size) * size + size;
      DivisionIsUnique(len, size, rest / size + 1, rest % size);
    }
  }

  /** The blocks of `message`: each is headed by the number of blocks still to come. */
  function BlocksOf(message: Bytes, size: nat): (r: seq<Bytes>)
    requires size > 0 && Full(|message|, size) <= 255
    ensures |r| == Full(|message|, size) + 1
    decreases |message|
  {
    if |message| < size then [[0] + message]
    else
      var rest := BlocksOf(message[size..], size);
      [[|rest|] + message[..size]] + rest
  }

  /** An mtu of 1 leaves no room for data: the division overflows and the split is refused. */
  function Split(message: Bytes, mtu: nat): SplitResult
    requires mtu > 0
  {
    if mtu == 1 || |message| / (mtu - 1) > 255 then TooLong
    else
      FullIsQuotient(|message|, mtu - 1);
      Blocks(BlocksOf(message, mtu - 1))
  }

  lemma NextBlock(message: Bytes, size: nat, offset: nat)
    requires size > 0 && offset <= |message| && Full(|message| - offset, size) <= 255
    ensures var k := Full(|message| - offset, size);
            BlocksOf(message[offset..], size) ==
            if k == 0 then [[0] + message[offset..]]
            else [[k] + message[offset..offset + size]] + BlocksOf(message[offset + size..], size)
  {
    var rest := message[offset..];
    if |rest| >= size {
      assert rest[..size] == message[offset..offset + size] && rest[size..] == message[offset + size..];
    }
  }

  /** An mtu of 0 would trap in the source when the header byte is subtracted. */
  method SplitMessageForBluetooth(message: Bytes, mtu: nat) returns (r: SplitResult)
    requires mtu > 0
    ensures r == Split(message, mtu)
  {
    var size := mtu - 1;
    if size == 0 || |message| / size > 255 {
      return TooLong;
    }
    FullIsQuotient(|message|, size);
    var blocks: seq<Bytes> := [];
    var k: int := |message| / size;
    var offset := 0;
    assert message[0..] == message;
    while k >= 0
      invariant -1 <= k <= 255 && 0 <= offset
      invariant k >= 0 ==> offset <= |message| && k == Full(|message| - offset, size)
      invariant k >= 0 ==> blocks + BlocksOf(message[offset..], size) == BlocksOf(message, size)
      invariant k < 0 ==> blocks == BlocksOf(message, size)
      decreases k
    {
      var end := if |message| < offset + size then |message| else offset + size;
      var block: Bytes := [k] + message[offset..end];
      NextBlock(message, size, offset);
      assert k == 0 ==> end == |message| && message[offset..end] == message[offset..];
      blocks := blocks + [block];
      offset := offset + size;
      k := k - 1;
    }
    r := Blocks(blocks);
  }

  /** The data of a stream of blocks, headers removed. */
  function Payload(blocks: seq<Bytes>): Bytes {
    if blocks == [] then []
    else
      var n := |blocks| - 1;
      Payload(blocks[..n]) + if blocks[n] == [] then [] else blocks[n][1..]
  }

  lemma PayloadOne(block: Bytes)
    ensures Payload([block]) == if block == [] then [] else block[1..]
  {
    var one := [block];
    assert one[..0] == [];
  }

  lemma {:induction false} PayloadConcat(a: seq<Bytes>, b: seq<Bytes>)
    ensures Payload(a + b) == Payload(a) + Payload(b)
    decreases |b|
  {
    if b == [] {
      assert a + b == a;
    } else {
      var n := |b| - 1;
      var ab := a + b;
      var last := if b[n] == [] then [] else b[n][1..];
      assert ab[..|ab| - 1] == a + b[..n] && ab[|ab| - 1] == b[n];
      PayloadConcat(a, b[..n]);
      assert Payload(ab) == Payload(a + b[..n]) + last && Payload(b) == Payload(b[..n]) + last;
    }
  }

  /** Blocks count down to 0 and fit the mtu. */
  ghost predicate CountsDown(blocks: seq<Bytes>, size: nat) {
    forall i :: 0 <= i < |blocks| ==> 1 <= |blocks[i]| <= size + 1 && blocks[i][0] == |blocks| - 1 - i
  }

  lemma {:induction false} BlocksCountDown(message: Bytes, size: nat)
    requires size > 0 && Full(|message|, size) <= 255
    ensures CountsDown(BlocksOf(message, size), size)
    decreases |message|
  {
    if |message| >= size {
      var r, rest := BlocksOf(message, size), BlocksOf(message[size..], size);
      BlocksCountDown(message[size..], size);
      assert forall i :: 0 < i < |r| ==> r[i] == rest[i - 1];
    }
  }

  lemma {:induction false} BlocksCarryMessage(message: Bytes, size: nat)
    requires size > 0 && Full(|message|, size) <= 255
    ensures Payload(BlocksOf(message, size)) == message
    decreases |message|
  {
    var r := BlocksOf(message, size);
    PayloadOne(r[0]);
    if |message| < size {
      assert r == [r[0]];
    } else {
      var rest := BlocksOf(message[size..], size);
      BlocksCarryMessage(message[size..], size);
      assert r == [r[0]] + rest;
      PayloadConcat([r[0]], rest);
    }
  }

  /** A message splits exactly when its block count fits a byte; the blocks then fit the mtu and carry it. */
  lemma SplitCarriesMessage(message: Bytes, mtu: nat)
    requires mtu > 0
    ensures var r := Split(message, mtu);
            && (r.Blocks? <==> mtu > 1 && |message| / (mtu - 1) <= 255)
            && (r.Blocks? ==>
                  && Payload(r.blocks) == message
                  && |r.blocks| == |message| / (mtu - 1) + 1
                  && CountsDown(r.blocks, mtu - 1))
  {
    if mtu > 1 {
      FullIsQuotient(|message|, mtu - 1);
      if |message| / (mtu - 1) <= 255 {
        BlocksCarryMessage(message, mtu - 1);
        BlocksCountDown(message, mtu - 1);
      }
    }
  }

  // ---------- one characteristic ----------

  /** Data received so far and the number of the last block. */
  datatype Partial = Partial(data: Bytes, last: Byte)

  datatype Reception = Reception(buffer: Option<Partial>, delivered: seq<Bytes>)

  predicate IsData(block: Bytes) {
    |block| >= 2
  }

  predicate Continues(buffer: Option<Partial>, n: Byte) {
    buffer.Some? && buffer.value.last > 0 && n == buffer.value.last - 1
  }

  /** onUpdateCharacteristicValue: a block that is not the next one expected starts a new buffer. */
  function Reassembled(buffer: Option<Partial>, block: Bytes): Reception {
    if block == [] then Reception(buffer, [])
    else
      var data := (if Continues(buffer, block[0]) then buffer.value.data else []) + block[1..];
      if block[0] == 0 then Reception(None, [data]) else Reception(Some(Partial(data, block[0])), [])
  }

  /** didUpdateValueFor: a single byte is a control message. */
  function Accept(buffer: Option<Partial>, block: Bytes): Reception {
    if |block| == 1 then Reception(buffer, []) else Reassembled(buffer, block)
  }

  function AcceptAll(buffer: Option<Partial>, blocks: seq<Bytes>): Reception
    decreases |blocks|
  {
    if blocks == [] then Reception(buffer, [])
    else
      var first := Accept(buffer, blocks[0]);
      var rest := AcceptAll(first.buffer, blocks[1..]);
      Reception(rest.buffer, first.delivered + rest.delivered)
  }

  lemma {:induction false} AcceptConcat(buffer: Option<Partial>, a: seq<Bytes>, b: seq<Bytes>)
    ensures var x := AcceptAll(buffer, a);
            var y := AcceptAll(x.buffer, b);
            AcceptAll(buffer, a + b) == Reception(y.buffer, x.delivered + y.delivered)
    decreases |a|
  {
    if a == [] {
      assert a + b == b;
    } else {
      var ab, first := a + b, Accept(buffer, a[0]);
      assert ab[0] == a[0] && ab[1..] == a[1..] + b;
      AcceptConcat(first.buffer, a[1..], b);
      var x, rest := AcceptAll(first.buffer, a[1..]), AcceptAll(first.buffer, ab[1..]);
      assert AcceptAll(buffer, ab) == Reception(rest.buffer, first.delivered + rest.delivered);
      assert AcceptAll(buffer, a) == Reception(x.buffer, first.delivered + x.delivered);
    }
  }

  lemma AcceptSnoc(buffer: Option<Partial>, a: seq<Bytes>, block: Bytes)
    ensures var x := AcceptAll(buffer, a);
            var y := Accept(x.buffer, block);
            AcceptAll(buffer, a + [block]) == Reception(y.buffer, x.delivered + y.delivered)
  {
    AcceptConcat(buffer, a, [block]);
    assert [block][1..] == [];
  }

  // ---------- round trip over message lists ----------

  function SplitAll(messages: seq<Bytes>, mtu: nat): seq<Bytes>
    requires mtu > 0
    decreases |messages|
  {
    if messages == [] then []
    else
      match Split(messages[0], mtu)
      case Blocks(blocks) => blocks + SplitAll(messages[1..], mtu)
      case TooLong => SplitAll(messages[1..], mtu)
  }

  /**
   What the receiver makes of a list of messages. A message that fills its blocks
   exactly ends in a bare header, which is read as a control message: it is not
   delivered, and its data is prepended to the next message if that is a single block.
   */
  function Outcome(carry: Bytes, messages: seq<Bytes>, size: nat): seq<Bytes>
    requires size > 0
    decreases |messages|
  {
    if messages == [] then []
    else
      var m := messages[0];
      if m == [] then Outcome(carry, messages[1..], size)
      else if |m| % size == 0 then Outcome(m, messages[1..], size)
      else [if |m| < size then carry + m else m] + Outcome([], messages[1..], size)
  }

  function Carried(carry: Bytes): Option<Partial> {
    if carry == [] then None else Some(Partial(carry, 1))
  }

  lemma {:induction false} AcceptTail(done: Bytes, rest: Bytes, size: nat)
    requires size > 0 && Full(|rest|, size) < 255
    ensures AcceptAll(Some(Partial(done, Full(|rest|, size) + 1)), BlocksOf(rest, size)) ==
            if Left(|rest|, size) == 0 then Reception(Some(Partial(done + rest, 1)), []) else Reception(None, [done + rest])
    decreases |rest|
  {
    var blocks := BlocksOf(rest, size);
    if |rest| < size {
      assert blocks[1..] == [];
      assert rest == [] ==> done + rest == done;
      assert blocks[0][1..] == rest;
    } else {
      assert blocks[1..] == BlocksOf(rest[size..], size);
      assert blocks[0][1..] == rest[..size];
      assert done + rest[..size] + rest[size..] == done + rest;
      AcceptTail(done + rest[..size], rest[size..], size);
    }
  }

  lemma AcceptMessage(carry: Bytes, m: Bytes, size: nat)
    requires size > 0 && Full(|m|, size) <= 255
    ensures AcceptAll(Carried(carry), BlocksOf(m, size)) ==
            if m == [] then Reception(Carried(carry), [])
            else if Left(|m|, size) == 0 then Reception(Some(Partial(m, 1)), [])
            else Reception(None, [if |m| < size then carry + m else m])
  {
    var blocks := BlocksOf(m, size);
    if |m| < size {
      assert blocks[1..] == [];
      assert blocks[0][1..] == m;
    } else {
      AcceptLong(carry, m, size);
    }
  }

  /** A message of several blocks replaces what was carried over. */
  lemma AcceptLong(carry: Bytes, m: Bytes, size: nat)
    requires size > 0 && Full(|m|, size) <= 255 && |m| >= size
    ensures AcceptAll(Carried(carry), BlocksOf(m, size)) ==
            if Left(|m|, size) == 0 then Reception(Some(Partial(m, 1)), []) else Reception(None, [m])
  {
    var blocks, rest := BlocksOf(m, size), BlocksOf(m[size..], size);
    var first := Partial(m[..size], |rest|);
    assert blocks[0] == [|rest|] + m[..size] && blocks[1..] == rest;
    assert blocks[0][1..] == m[..size] && [] + m[..size] == m[..size];
    assert Accept(Carried(carry), blocks[0]) == Reception(Some(first), []);
    AcceptTail(m[..size], m[size..], size);
    assert m[..size] + m[size..] == m;
  }

  /** The receiver's behaviour on every list of messages that can be split, from a clean buffer. */
  lemma {:induction false} StreamOutcome(carry: Bytes, messages: seq<Bytes>, mtu: nat)
    requires mtu > 1 && forall i :: 0 <= i < |messages| ==> |messages[i]| / (mtu - 1) <= 255
    ensures AcceptAll(Carried(carry), SplitAll(messages, mtu)).delivered == Outcome(carry, messages, mtu - 1)
    decreases |messages|
  {
    if messages != [] {
      var m, rest, size := messages[0], messages[1..], mtu - 1;
      FullIsQuotient(|m|, size);
      var blocks := BlocksOf(m, size);
      AcceptMessage(carry, m, size);
      AcceptConcat(Carried(carry), blocks, SplitAll(rest, mtu));
      var next := if m == [] then carry else if |m| % size == 0 then m else [];
      assert AcceptAll(Carried(carry), blocks).buffer == Carried(next);
      StreamOutcome(next, rest, mtu);
    }
  }

  ghost predicate NoneFills(messages: seq<Bytes>, size: nat)
    requires size > 0
  {
    forall i :: 0 <= i < |messages| ==> |messages[i]| % size != 0
  }

  lemma NoneFillsTail(messages: seq<Bytes>, size: nat)
    requires size > 0 && messages != []
    ensures NoneFills(messages, size) <==> |messages[0]| % size != 0 && NoneFills(messages[1..], size)
  {
    var rest := messages[1..];
    assert forall i :: 0 < i < |messages| ==> messages[i] == rest[i - 1];
  }

  lemma {:induction false} OutcomeLength(carry: Bytes, messages: seq<Bytes>, size: nat)
    requires size > 0
    ensures |Outcome(carry, messages, size)| <= |messages|
    ensures |Outcome(carry, messages, size)| == |messages| <==> NoneFills(messages, size)
    decreases |messages|
  {
    if messages != [] {
      var m := messages[0];
      FullIsQuotient(|m|, size);
      NoneFillsTail(messages, size);
      OutcomeLength(if m == [] then carry else if |m| % size == 0 then m else [], messages[1..], size);
    }
  }

  lemma {:induction false} OutcomeIsMessages(messages: seq<Bytes>, size: nat)
    requires size > 0 && NoneFills(messages, size)
    ensures Outcome([], messages, size) == messages
    decreases |messages|
  {
    if messages != [] {
      var m := messages[0];
      FullIsQuotient(|m|, size);
      NoneFillsTail(messages, size);
      OutcomeIsMessages(messages[1..], size);
      assert [] + m == m;
    }
  }

  /**
   Sending a list of messages delivers exactly that list if and only if no message is a
   multiple of the block size.
   */
  lemma RoundTripIff(messages: seq<Bytes>, mtu: nat)
    requires mtu > 1 && forall i :: 0 <= i < |messages| ==> |messages[i]| / (mtu - 1) <= 255
    ensures AcceptAll(None, SplitAll(messages, mtu)).delivered == messages
            <==> forall i :: 0 <= i < |messages| ==> |messages[i]| % (mtu - 1) != 0
  {
    StreamOutcome([], messages, mtu);
    OutcomeLength([], messages, mtu - 1);
    if NoneFills(messages, mtu - 1) { OutcomeIsMessages(messages, mtu - 1); }
  }

  /** The failing family in the smallest setting: two messages, and what arrives is neither. */
  lemma ExactFitCorruptsNext(full: Bytes, short: Bytes, mtu: nat)
    requires mtu > 2 && 0 < |full| && |full| % (mtu - 1) == 0 && |full| / (mtu - 1) <= 255 && 0 < |short| < mtu - 1
    ensures AcceptAll(None, SplitAll([full, short], mtu)).delivered == [full + short]
  {
    var size := mtu - 1;
    FullIsQuotient(|short|, size);
    StreamOutcome([], [full, short], mtu);
    assert [full, short][1..] == [short] && [short][1..] == [];
    assert Outcome(full, [short], size) == [full + short] + Outcome([], [], size);
    assert Outcome([], [full, short], size) == Outcome(full, [short], size);
  }

  // ---------- arbitrary streams ----------

  /** The number of a block. */
  function Number(block: Bytes): int {
    if block == [] then 0 else block[0]
  }

  /** Block `i` continues its predecessor: it carries the next lower number. */
  predicate Follows(blocks: seq<Bytes>, i: int) {
    0 < i < |blocks| && Number(blocks[i]) == Number(blocks[i - 1]) - 1
  }

  predicate AllData(blocks: seq<Bytes>) {
    forall j :: 0 <= j < |blocks| ==> IsData(blocks[j])
  }

  /** Blocks `i` up to `j` are consecutive, and the run cannot be extended to the left. */
  ghost predicate MaximalRun(blocks: seq<Bytes>, i: nat, j: nat) {
    && i < j <= |blocks|
    && (forall t :: i < t < j ==> Follows(blocks, t))
    && !Follows(blocks, i)
  }

  function RunStart(blocks: seq<Bytes>): (i: nat)
    requires blocks != []
    ensures MaximalRun(blocks, i, |blocks|)
    decreases |blocks|
  {
    var n := |blocks| - 1;
    if Follows(blocks, n) then
      var i := RunStart(blocks[..n]);
      assert forall t :: 0 <= t < n ==> (Follows(blocks, t) <==> Follows(blocks[..n], t));
      i
    else n
  }

  lemma MaximalRunUnique(blocks: seq<Bytes>, i: nat, i': nat, j: nat)
    requires MaximalRun(blocks, i, j) && MaximalRun(blocks, i', j)
    ensures i == i'
  {
  }

  /** One delivery for each block numbered 0: the data of the maximal run that ends there. */
  function RunsDelivered(blocks: seq<Bytes>): seq<Bytes>
    decreases |blocks|
  {
    if blocks == [] then []
    else
      var n := |blocks| - 1;
      RunsDelivered(blocks[..n]) + if Number(blocks[n]) == 0 then [Payload(blocks[RunStart(blocks)..])] else []
  }

  /**
   Whatever blocks are lost, repeated or reordered: the buffer holds the maximal run in
   progress, its number is positive, and every delivery is a maximal run down to 0.
   */
  lemma {:induction false} ArbitraryStream(blocks: seq<Bytes>)
    requires AllData(blocks)
    ensures AcceptAll(None, blocks).delivered == RunsDelivered(blocks)
    ensures AcceptAll(None, blocks).buffer ==
            if blocks == [] || Number(blocks[|blocks| - 1]) == 0 then None
            else Some(Partial(Payload(blocks[RunStart(blocks)..]), Number(blocks[|blocks| - 1])))
    decreases |blocks|
  {
    if blocks != [] {
      var n := |blocks| - 1;
      var before, block := blocks[..n], blocks[n];
      assert blocks == before + [block];
      assert AllData(before);
      ArbitraryStream(before);
      AcceptSnoc(None, before, block);
      RunExtends(before, block, AcceptAll(None, before).buffer);
    }
  }

  lemma RunStartSnoc(before: seq<Bytes>, block: Bytes)
    ensures var blocks := before + [block];
            RunStart(blocks) == if Follows(blocks, |before|) then RunStart(before) else |before|
  {
    assert (before + [block])[..|before|] == before;
  }

  lemma PayloadSnoc(before: seq<Bytes>, block: Bytes)
    requires block != []
    ensures Payload(before + [block]) == Payload(before) + block[1..]
  {
    PayloadOne(block);
    PayloadConcat(before, [block]);
  }

  /** The run in progress grows by a block exactly when the receiver appends it to its buffer. */
  lemma RunExtends(before: seq<Bytes>, block: Bytes, buffer: Option<Partial>)
    requires AllData(before) && IsData(block)
    requires buffer ==
             if before == [] || Number(before[|before| - 1]) == 0 then None
             else Some(Partial(Payload(before[RunStart(before)..]), Number(before[|before| - 1])))
    ensures var blocks := before + [block];
            Payload(blocks[RunStart(blocks)..]) == (if Continues(buffer, block[0]) then buffer.value.data else []) + block[1..]
  {
    var blocks, n := before + [block], |before|;
    RunStartSnoc(before, block);
    assert Follows(blocks, n) <==> Continues(buffer, block[0]);
    PayloadFrom(before, block, if Follows(blocks, n) then RunStart(before) else n);
  }

  lemma PayloadFrom(before: seq<Bytes>, block: Bytes, i: nat)
    requires block != [] && i <= |before|
    ensures Payload((before + [block])[i..]) == Payload(before[i..]) + block[1..]
  {
    assert (before + [block])[i..] == before[i..] + [block];
    PayloadSnoc(before[i..], block);
  }

  /** Control and empty blocks are invisible to the reassembly. */
  function DataOnly(blocks: seq<Bytes>): (r: seq<Bytes>)
    ensures AllData(r)
    decreases |blocks|
  {
    if blocks == [] then []
    else (if IsData(blocks[0]) then [blocks[0]] else []) + DataOnly(blocks[1..])
  }

  lemma {:induction false} ControlIsInvisible(buffer: Option<Partial>, blocks: seq<Bytes>)
    ensures AcceptAll(buffer, blocks) == AcceptAll(buffer, DataOnly(blocks))
    decreases |blocks|
  {
    if blocks != [] {
      ControlIsInvisible(Accept(buffer, blocks[0]).buffer, blocks[1..]);
      if IsData(blocks[0]) {
        assert DataOnly(blocks)[1..] == DataOnly(blocks[1..]);
      } else {
        assert DataOnly(blocks) == DataOnly(blocks[1..]);
      }
    }
  }

  // ---------- many characteristics ----------

  type Characteristic = nat

  datatype Packet = Packet(characteristic: Characteristic, block: Bytes)
  datatype Delivery = Delivery(characteristic: Characteristic, message: Bytes)
  datatype Link = Link(buffers: map<Characteristic, Partial>, delivered: seq<Delivery>, refreshes: seq<Characteristic>)

  function BufferOf(buffers: map<Characteristic, Partial>, c: Characteristic): Option<Partial> {
    if c in buffers then Some(buffers[c]) else None
  }

  function Stored(link: Link, c: Characteristic, r: Reception): Link {
    Link(if r.buffer.Some? then link.buffers[c := r.buffer.value] else link.buffers - {c},
         link.delivered + seq(|r.delivered|, i requires 0 <= i < |r.delivered| => Delivery(c, r.delivered[i])),
         link.refreshes)
  }

  function Updated(link: Link, p: Packet): Link {
    if |p.block| == 1 then
      link.(refreshes := link.refreshes + if p.block[0] == 0 then [p.characteristic] else [])
    else Stored(link, p.characteristic, Reassembled(BufferOf(link.buffers, p.characteristic), p.block))
  }

  function UpdatedAll(link: Link, packets: seq<Packet>): Link
    decreases |packets|
  {
    if packets == [] then link else Updated(UpdatedAll(link, packets[..|packets| - 1]), packets[|packets| - 1])
  }

  /** The receiving half of the delegate; all its buffers change under its mutex. */
  class Receiver {
    var buffers: map<Characteristic, Partial>
    var delivered: seq<Delivery>
    var refreshes: seq<Characteristic>

    ghost function View(): Link
      reads this
    {
      Link(buffers, delivered, refreshes)
    }

    constructor ()
      ensures View() == Link(map[], [], [])
    {
      buffers, delivered, refreshes := map[], [], [];
    }

    method OnUpdateCharacteristicValue(c: Characteristic, block: Bytes)
      modifies this`buffers, this`delivered
      ensures View() == Stored(old(View()), c, Reassembled(BufferOf(old(buffers), c), block))
    {
      if |block| == 0 {
        assert old(BufferOf(buffers, c)) == None ==> buffers - {c} == buffers;
        assert c in buffers ==> buffers[c := buffers[c]] == buffers;
        assert delivered + [] == delivered;
        return;
      }
      var n, data := block[0], block[1..];
      if c in buffers && buffers[c].last > 0 && n == buffers[c].last - 1 {
        buffers := buffers[c := Partial(buffers[c].data + data, n)];
      } else {
        buffers := buffers[c := Partial(data, n)];
      }
      if n == 0 {
        delivered := delivered + [Delivery(c, buffers[c].data)];
        buffers := buffers - {c};
      }
      assert [] + data == data;
    }

    method DidUpdateValueFor(c: Characteristic, block: Bytes)
      modifies this
      ensures View() == Updated(old(View()), Packet(c, block))
    {
      if |block| == 1 {
        if block[0] == 0 {
          refreshes := refreshes + [c];
        }
        return;
      }
      OnUpdateCharacteristicValue(c, block);
    }
  }

  function BlocksOn(packets: seq<Packet>, c: Characteristic): seq<Bytes>
    decreases |packets|
  {
    if packets == [] then []
    else
      var n := |packets| - 1;
      BlocksOn(packets[..n], c) + if packets[n].characteristic == c then [packets[n].block] else []
  }

  function DeliveredOn(delivered: seq<Delivery>, c: Characteristic): seq<Bytes>
    decreases |delivered|
  {
    if delivered == [] then []
    else
      var n := |delivered| - 1;
      DeliveredOn(delivered[..n], c) + if delivered[n].characteristic == c then [delivered[n].message] else []
  }

  lemma UpdatedProjects(link: Link, p: Packet, c: Characteristic)
    ensures var t := Updated(link, p);
            if p.characteristic == c
            then var r := Accept(BufferOf(link.buffers, c), p.block);
                 BufferOf(t.buffers, c) == r.buffer && DeliveredOn(t.delivered, c) == DeliveredOn(link.delivered, c) + r.delivered
            else BufferOf(t.buffers, c) == BufferOf(link.buffers, c) && DeliveredOn(t.delivered, c) == DeliveredOn(link.delivered, c)
  {
    if |p.block| != 1 {
      StoredProjects(link, p.characteristic, Reassembled(BufferOf(link.buffers, p.characteristic), p.block), c);
    }
  }

  lemma DeliveredSnoc(delivered: seq<Delivery>, d: Delivery, c: Characteristic)
    ensures DeliveredOn(delivered + [d], c) == DeliveredOn(delivered, c) + if d.characteristic == c then [d.message] else []
  {
    var all := delivered + [d];
    assert all[..|all| - 1] == delivered && all[|all| - 1] == d;
  }

  lemma StoredProjects(link: Link, at: Characteristic, r: Reception, c: Characteristic)
    requires |r.delivered| <= 1
    ensures var t := Stored(link, at, r);
            && BufferOf(t.buffers, c) == (if c == at then r.buffer else BufferOf(link.buffers, c))
            && DeliveredOn(t.delivered, c) == DeliveredOn(link.delivered, c) + if c == at then r.delivered else []
  {
    var t := Stored(link, at, r);
    if r.delivered == [] {
      assert t.delivered == link.delivered;
    } else {
      DeliveredSnoc(link.delivered, Delivery(at, r.delivered[0]), c);
      assert t.delivered == link.delivered + [Delivery(at, r.delivered[0])];
      assert r.delivered == [r.delivered[0]];
    }
  }

  /** Characteristics never interfere: each sees exactly what its own blocks alone would produce. */
  lemma {:induction false} CharacteristicsAreIndependent(packets: seq<Packet>, c: Characteristic)
    ensures var link := UpdatedAll(Link(map[], [], []), packets);
            var alone := AcceptAll(None, BlocksOn(packets, c));
            BufferOf(link.buffers, c) == alone.buffer && DeliveredOn(link.delivered, c) == alone.delivered
    decreases |packets|
  {
    if packets != [] {
      var n := |packets| - 1;
      CharacteristicsAreIndependent(packets[..n], c);
      UpdatedProjects(UpdatedAll(Link(map[], [], []), packets[..n]), packets[n], c);
      if packets[n].characteristic == c {
        AcceptSnoc(None, BlocksOn(packets[..n], c), packets[n].block);
      } else {
        assert BlocksOn(packets, c) == BlocksOn(packets[..n], c);
      }
    }
  }

  /** The characteristics on which a refresh was asked for, in order. */
  function RefreshesIn(packets: seq<Packet>): seq<Characteristic>
    decreases |packets|
  {
    if packets == [] then []
    else
      var n := |packets| - 1;
      RefreshesIn(packets[..n]) + if packets[n].block == [0] then [packets[n].characteristic] else []
  }

  /** A refresh is asked for by the single byte 0 and by nothing else. */
  lemma {:induction false} RefreshesAreAsked(packets: seq<Packet>)
    ensures UpdatedAll(Link(map[], [], []), packets).refreshes == RefreshesIn(packets)
    decreases |packets|
  {
    if packets != [] {
      var n := |packets| - 1;
      RefreshesAreAsked(packets[..n]);
      assert packets[n].block == [0] <==> |packets[n].block| == 1 && packets[n].block[0] == 0;
    }
  }

  /** For every traffic: a stored number is positive, and deliveries are the maximal runs of each characteristic. */
  lemma EveryDeliveryIsAMaximalRun(packets: seq<Packet>, c: Characteristic)
    ensures var link := UpdatedAll(Link(map[], [], []), packets);
            && DeliveredOn(link.delivered, c) == RunsDelivered(DataOnly(BlocksOn(packets, c)))
            && (c in link.buffers ==> link.buffers[c].last > 0)
  {
    CharacteristicsAreIndependent(packets, c);
    ControlIsInvisible(None, BlocksOn(packets, c));
    ArbitraryStream(DataOnly(BlocksOn(packets, c)));
  }
}
