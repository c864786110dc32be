/**
 The shared state of krd/enclave_client.go as a transition system.

 A step is a region that the client executes while holding its lock, with two
 choices of granularity written out where the source drops the lock part-way:
 `Send` checks for the key and enqueues at once, while `SendBegin`/`SendEnd`
 split there; `Inbound(ps, ...)` is the body of handleCiphertext run with the
 pairing `ps` that it read earlier, which need not be current any more, while
 `KeyBegin`/`KeyNext` take its key branch apart: install the key, take the queue,
 save the pairing, hand over the queued messages one by one.

 Pairing objects live in `heap` and are named by index, so a goroutine can
 still hold one after it was replaced. Channels are named by index too; `sent`
 records everything ever put on a channel and `taken` how much its waiter has
 received.
 */
module Enclave {
  import opened Basics
  import opened Crypto
  import opened Pairing
  import Lru

  type RequestId = string

  datatype Profile = Profile(sshWirePublicKey: Bytes, email: string)
  datatype Medium = Sqs | Bluetooth

  /** A decoded reply; `body` stands for the answers that krd only passes on. */
  datatype Response = Response(
    id: RequestId,
    ack: bool,
    unpair: bool,
    snsEndpointARN: Option<string>,
    trackingID: Option<string>,
    body: Bytes)

  datatype Item = Nil | Reply(response: Response, medium: Medium)

  /** A message and the pairing it is meant for. The source keeps the message alone; no step looks at the rest. */
  datatype Offer = Offer(pairing: nat, message: Bytes)

  /** An offer handed to the transport, and the pairing under which it was. */
  datatype Handed = Handed(pairing: nat, offer: Offer)
  datatype Sender = Sender(offer: Offer, queueable: bool)

  /** How far handleCiphertext got after it installed a key, and the queued messages it has taken but not sent. */
  datatype Stage = Fresh | Taken | Saved
  datatype Finisher = Finisher(ps: nat, stage: Stage, batch: seq<Offer>)

  const TABLE_SIZE := 128
  const QUEUE_SIZE := 128
  const CHANNEL_CAPACITY := 5

  /** What the client calls but does not implement: the box and the JSON decoder. */
  datatype World = World(suite: Suite, decode: Bytes -> Option<Response>)

  datatype State = State(
    heap: seq<Pairing>,
    current: Option<nat>,
    disk: Option<PersistedPairing>,
    me: Option<Profile>,
    diskMe: Option<Profile>,
    callbacks: Lru.Cache<RequestId, nat>,
    acked: Lru.Cache<RequestId, ()>,
    queue: seq<Offer>,
    waiting: seq<Sender>,
    finishing: seq<Finisher>,
    sent: seq<seq<Item>>,
    owner: seq<RequestId>,
    taken: seq<nat>,
    displaced: set<nat>,
    wire: seq<Handed>)

  datatype KeyPair = KeyPair(publicKey: Bytes, secretKey: Bytes)

  datatype Event =
    | Pair(keys: Option<KeyPair>, name: string, version: string)
    | Unpair
    | Restart
    | Register(id: RequestId)
    | Take(ch: nat)
    | Send(ps: nat, message: Bytes, queueable: bool)
    | SendBegin(ps: nat, message: Bytes, queueable: bool)
    | SendEnd(k: nat)
    | Inbound(ps: nat, frame: Bytes, medium: Medium)
    | KeyBegin(ps: nat, frame: Bytes)
    | KeyNext(k: nat)
    | Deliver(ps: nat, response: Response, medium: Medium)
    | Poll(id: RequestId)
    | GiveUp(id: RequestId)
    | CacheMe(profile: Profile)

  const Init: State := State([], None, None, None, None, [], [], [], [], [], [], [], [], {}, [])

  // ---------- pairing ----------

  /** unpair: forget `ps`, in memory and on disk, provided it is still the current pairing. */
  function Unpaired(s: State, ps: nat): State
    requires ps < |s.heap|
  {
    if s.current == None || s.current.value >= |s.heap| || !Equals(s.heap[s.current.value], s.heap[ps]) then s
    else s.(me := None, current := None, diskMe := None, disk := None)
  }

  function UnpairedCurrent(s: State): State {
    match s.current
    case None => s
    case Some(ps) => if ps < |s.heap| then Unpaired(s, ps) else s
  }

  function FreshPairing(keys: KeyPair, name: string, version: string): Pairing {
    Pairing(None, keys.publicKey, keys.secretKey, name, None, None, version)
  }

  /** Pair: unpair, erase what is stored, and install a fresh secret unless key generation failed. */
  function Paired(s: State, keys: Option<KeyPair>, name: string, version: string): State {
    var s1 := UnpairedCurrent(s).(diskMe := None, disk := None);
    match keys
    case None => s1
    case Some(kp) =>
      var p := FreshPairing(kp, name, version);
      s1.(heap := s1.heap + [p], current := Some(|s1.heap|), queue := [], disk := Some(ToPersisted(p)))
  }

  /** LoadMe refuses a profile without a public key. */
  function LoadedMe(stored: Option<Profile>): Option<Profile> {
    match stored
    case None => None
    case Some(me) => if me.sshWirePublicKey == [] then None else Some(me)
  }

  /** A crash loses everything but the stored pairing and profile; Start then loads those. */
  function Restarted(s: State): State {
    var booted := Init.(disk := s.disk, diskMe := s.diskMe, me := LoadedMe(s.diskMe));
    match s.disk
    case None => booted
    case Some(q) => booted.(heap := [FromPersisted(q)], current := Some(0))
  }

  // ---------- sending ----------

  function Enqueued(queue: seq<Offer>, sender: Sender): seq<Offer> {
    if |queue| < QUEUE_SIZE && sender.queueable then queue + [sender.offer] else queue
  }

  /** sendMessage once the key was found present: a key of the wrong size fails to box anything. */
  function HandedOver(s: State, ps: nat, offer: Offer): State
    requires ps < |s.heap|
  {
    if Ready(s.heap[ps]) then s.(wire := s.wire + [Handed(ps, offer)]) else s
  }

  function Sent(s: State, ps: nat, message: Bytes, queueable: bool): State
    requires ps < |s.heap|
  {
    if s.heap[ps].enclavePublicKey == None then s.(queue := Enqueued(s.queue, Sender(Offer(ps, message), queueable)))
    else HandedOver(s, ps, Offer(ps, message))
  }

  function SendBegun(s: State, ps: nat, message: Bytes, queueable: bool): State
    requires ps < |s.heap|
  {
    if s.heap[ps].enclavePublicKey == None then s.(waiting := s.waiting + [Sender(Offer(ps, message), queueable)])
    else HandedOver(s, ps, Offer(ps, message))
  }

  function SendEnded(s: State, k: nat): State
    requires k < |s.waiting|
  {
    s.(queue := Enqueued(s.queue, s.waiting[k]), waiting := s.waiting[..k] + s.waiting[k + 1..])
  }

  function AllHandedOver(s: State, ps: nat, offers: seq<Offer>): State
    requires ps < |s.heap|
    decreases |offers|
  {
    if offers == [] then s else AllHandedOver(HandedOver(s, ps, offers[0]), ps, offers[1..])
  }

  // ---------- receiving ----------

  function Put(sent: seq<seq<Item>>, ch: nat, item: Item): (r: seq<seq<Item>>)
    ensures |r| == |sent|
  {
    if ch < |sent| then sent[ch := sent[ch] + [item]] else sent
  }

  /** Evicting from the back, one nil per cached channel. */
  function Drained(sent: seq<seq<Item>>, callbacks: Lru.Cache<RequestId, nat>): (r: seq<seq<Item>>)
    ensures |r| == |sent|
    decreases |callbacks|
  {
    if callbacks == [] then sent
    else
      var n := |callbacks| - 1;
      Drained(Put(sent, callbacks[n].value, Nil), callbacks[..n])
  }

  /** ARN and tracking ID, accepted only from the pairing that is still current. */
  function Annotated(s: State, ps: nat, r: Response): State
    requires ps < |s.heap|
  {
    if s.current == None || s.current.value >= |s.heap| || !Equals(s.heap[s.current.value], s.heap[ps]) then s
    else
      var cur := s.current.value;
      var s1 :=
        if r.snsEndpointARN == None then s
        else
          var p := s.heap[cur].(snsEndpointARN := r.snsEndpointARN);
          s.(heap := s.heap[cur := p], disk := Some(ToPersisted(p)));
      if r.trackingID == None || r.trackingID == s1.heap[cur].trackingID then s1
      else
        var p := s1.heap[cur].(trackingID := r.trackingID);
        s1.(heap := s1.heap[cur := p], disk := Some(ToPersisted(p)))
  }

  /** The callback table's share of handleMessage. */
  function Answered(s: State, r: Response, medium: Medium): State {
    var s1 :=
      match Lru.Lookup(s.callbacks, r.id)
      case None => s
      case Some(ch) =>
        s.(sent := Put(s.sent, ch, Reply(r, medium)), callbacks := Lru.Touch(s.callbacks, r.id));
    if r.ack then s1.(acked := Lru.Add(s1.acked, r.id, (), TABLE_SIZE))
    else s1.(callbacks := Lru.Without(s1.callbacks, r.id))
  }

  function Handled(s: State, ps: nat, r: Response, medium: Medium): State
    requires ps < |s.heap|
  {
    if r.unpair then
      var s1 := Unpaired(s, ps);
      s1.(sent := Drained(s1.sent, s1.callbacks), callbacks := [])
    else
      Answered(Annotated(s, ps, r), r, medium)
  }

  /** handleCiphertext, from the point where it has read the pairing as `ps`. */
  function Inbounded(w: World, s: State, ps: nat, frame: Bytes, medium: Medium): State
    requires ps < |s.heap|
  {
    match Unwrap(w.suite, s.heap[ps], frame)
    case Failed(_) => s
    case Ignored => s
    case Installed(key) =>
      var p := s.heap[ps].(enclavePublicKey := Some(key));
      AllHandedOver(s.(heap := s.heap[ps := p], queue := [], disk := Some(ToPersisted(p))), ps, s.queue)
    case Ciphertext(c) =>
      match DecryptMessage(w.suite, s.heap[ps], c)
      case Err(_) => s
      case Ok(m) =>
        match w.decode(m)
        case None => s
        case Some(r) => Handled(s, ps, r, medium)
  }

  /** The key is installed, and nothing else has happened yet. */
  function KeyBegun(w: World, s: State, ps: nat, frame: Bytes): State
    requires ps < |s.heap|
  {
    match Unwrap(w.suite, s.heap[ps], frame)
    case Installed(key) =>
      s.(heap := s.heap[ps := s.heap[ps].(enclavePublicKey := Some(key))], finishing := s.finishing + [Finisher(ps, Fresh, [])])
    case _ => s
  }

  /** Finisher `k` goes on by one region. */
  function KeyAdvanced(s: State, k: nat): State
    requires k < |s.finishing|
  {
    var f := s.finishing[k];
    if f.ps >= |s.heap| then s
    else
      match f.stage
      case Fresh => s.(queue := [], finishing := s.finishing[k := f.(stage := Taken, batch := s.queue)])
      case Taken => s.(disk := Some(ToPersisted(s.heap[f.ps])), finishing := s.finishing[k := f.(stage := Saved)])
      case Saved =>
        if f.batch == [] then s.(finishing := s.finishing[..k] + s.finishing[k + 1..])
        else HandedOver(s, f.ps, f.batch[0]).(finishing := s.finishing[k := f.(batch := f.batch[1..])])
  }

  // ---------- requests ----------

  /** A new channel enters the table; the channel it pushes out, if any, is recorded. */
  function Registered(s: State, id: RequestId): State {
    var ch: nat := |s.sent|;
    var out := Lru.Displaced(s.callbacks, id, TABLE_SIZE);
    s.(callbacks := Lru.Add(s.callbacks, id, ch, TABLE_SIZE),
       sent := s.sent + [[]],
       owner := s.owner + [id],
       taken := s.taken + [0],
       displaced := if out.Some? then s.displaced + {out.value} else s.displaced)
  }

  function GivenUp(s: State, id: RequestId): State {
    match Lru.Lookup(s.callbacks, id)
    case None => s
    case Some(ch) => s.(sent := Put(s.sent, ch, Nil), callbacks := Lru.Without(s.callbacks, id))
  }

  function Polled(s: State, id: RequestId): State {
    s.(callbacks := Lru.Touch(s.callbacks, id), acked := Lru.Touch(s.acked, id))
  }

  function Took(s: State, ch: nat): State {
    if ch < |s.taken| && ch < |s.sent| && s.taken[ch] < |s.sent[ch]|
    then s.(taken := s.taken[ch := s.taken[ch] + 1])
    else s
  }

  // ---------- runs ----------

  /** An event that names a pairing, sender or channel which does not exist changes nothing. */
  function Step(w: World, s: State, e: Event): State {
    match e
    case Pair(keys, name, version) => Paired(s, keys, name, version)
    case Unpair => UnpairedCurrent(s)
    case Restart => Restarted(s)
    case Register(id) => Registered(s, id)
    case Take(ch) => Took(s, ch)
    case Send(ps, m, q) => if ps < |s.heap| then Sent(s, ps, m, q) else s
    case SendBegin(ps, m, q) => if ps < |s.heap| then SendBegun(s, ps, m, q) else s
    case SendEnd(k) => if k < |s.waiting| then SendEnded(s, k) else s
    case Inbound(ps, frame, medium) => if ps < |s.heap| then Inbounded(w, s, ps, frame, medium) else s
    case KeyBegin(ps, frame) => if ps < |s.heap| then KeyBegun(w, s, ps, frame) else s
    case KeyNext(k) => if k < |s.finishing| then KeyAdvanced(s, k) else s
    case Deliver(ps, r, medium) => if ps < |s.heap| then Handled(s, ps, r, medium) else s
    case Poll(id) => Polled(s, id)
    case GiveUp(id) => GivenUp(s, id)
    case CacheMe(profile) => s.(me := Some(profile), diskMe := Some(profile))
  }

  function RunFrom(w: World, s: State, events: seq<Event>): State
    decreases |events|
  {
    if events == [] then s
    else
      var n := |events| - 1;
      Step(w, RunFrom(w, s, events[..n]), events[n])
  }

  function Run(w: World, events: seq<Event>): State {
    RunFrom(w, Init, events)
  }

  lemma RunSnoc(w: World, s: State, events: seq<Event>, e: Event)
    ensures RunFrom(w, s, events + [e]) == Step(w, RunFrom(w, s, events), e)
  {
    var all := events + [e];
    assert all[..|all| - 1] == events && all[|all| - 1] == e;
  }

  lemma {:induction false} RunConcat(w: World, s: State, a: seq<Event>, b: seq<Event>)
    ensures RunFrom(w, s, a + b) == RunFrom(w, RunFrom(w, s, a), b)
    decreases |b|
  {
    if b == [] {
      assert a + b == a;
    } else {
      var n := |b| - 1;
      var front, e := b[..n], b[n];
      assert b == front + [e] && a + b == (a + front) + [e];
      RunConcat(w, s, a, front);
      RunSnoc(w, s, a + front, e);
      RunSnoc(w, RunFrom(w, s, a), front, e);
    }
  }

  /** Running `events` from `s` ends in `t`; phrased so that a proof unrolls the run only on demand. */
  ghost predicate Leads(w: World, s: State, events: seq<Event>, t: State) {
    forall same :: same == events ==> RunFrom(w, s, same) == t
  }

  lemma LeadsConcat(w: World, s: State, a: seq<Event>, t: State, b: seq<Event>, u: State)
    requires Leads(w, s, a, t) && Leads(w, t, b, u)
    ensures Leads(w, s, a + b, u)
  {
    RunConcat(w, s, a, b);
    assert RunFrom(w, s, a) == t && RunFrom(w, t, b) == u;
  }

  lemma LeadsOne(w: World, s: State, e: Event)
    ensures Leads(w, s, [], s)
    ensures Leads(w, s, [e], Step(w, s, e))
  {
    assert [e][..0] == [];
    assert RunFrom(w, s, []) == s;
  }

  function Batch(ps: nat, offers: seq<Offer>): (r: seq<Handed>)
    ensures |r| == |offers| && forall i :: 0 <= i < |r| ==> r[i] == Handed(ps, offers[i])
  {
    seq(|offers|, i requires 0 <= i < |offers| => Handed(ps, offers[i]))
  }

  lemma {:induction false} AllHandedOverIs(s: State, ps: nat, offers: seq<Offer>)
    requires ps < |s.heap|
    ensures AllHandedOver(s, ps, offers) ==
            if Ready(s.heap[ps]) then s.(wire := s.wire + Batch(ps, offers)) else s
    decreases |offers|
  {
    if offers == [] {
      assert s.wire + Batch(ps, offers) == s.wire;
    } else {
      var rest := offers[1..];
      AllHandedOverIs(HandedOver(s, ps, offers[0]), ps, rest);
      assert s.wire + [Handed(ps, offers[0])] + Batch(ps, rest) == s.wire + Batch(ps, offers);
    }
  }

  /** What a frame that installs a key changes: the pairing, its stored copy, and where the queued messages are. */
  lemma InstalledIs(w: World, s: State, ps: nat, frame: Bytes, medium: Medium)
    requires ps < |s.heap| && Unwrap(w.suite, s.heap[ps], frame).Installed?
    ensures var p := s.heap[ps].(enclavePublicKey := Some(Unwrap(w.suite, s.heap[ps], frame).key));
            Inbounded(w, s, ps, frame, medium) ==
            s.(heap := s.heap[ps := p], queue := [], disk := Some(ToPersisted(p)),
               wire := s.wire + if Ready(p) then Batch(ps, s.queue) else [])
  {
    var p := s.heap[ps].(enclavePublicKey := Some(Unwrap(w.suite, s.heap[ps], frame).key));
    AllHandedOverIs(s.(heap := s.heap[ps := p], queue := [], disk := Some(ToPersisted(p))), ps, s.queue);
    assert s.wire + [] == s.wire;
  }

  // ---------- the two readings of a key frame ----------

  /** `n` regions of the same finisher, with nothing in between. */
  function Nexts(k: nat, n: nat): (r: seq<Event>)
    ensures |r| == n
  {
    if n == 0 then [] else Nexts(k, n - 1) + [KeyNext(k)]
  }

  lemma {:induction false} NextsFront(k: nat, n: nat)
    requires n > 0
    ensures Nexts(k, n) == [KeyNext(k)] + Nexts(k, n - 1)
  {
    if n > 1 { NextsFront(k, n - 1); }
  }

  lemma LeadsCons(w: World, s: State, e: Event, events: seq<Event>, t: State)
    requires Leads(w, Step(w, s, e), events, t)
    ensures Leads(w, s, [e] + events, t)
  {
    LeadsOne(w, s, e);
    LeadsConcat(w, s, [e], Step(w, s, e), events, t);
  }

  lemma NextLeads(w: World, s: State, k: nat, n: nat, t: State)
    requires k < |s.finishing| && n > 0 && Leads(w, KeyAdvanced(s, k), Nexts(k, n - 1), t)
    ensures Leads(w, s, Nexts(k, n), t)
  {
    NextsFront(k, n);
    assert Step(w, s, KeyNext(k)) == KeyAdvanced(s, k);
    LeadsCons(w, s, KeyNext(k), Nexts(k, n - 1), t);
  }

  lemma LastAdvance(s: State, f: Finisher)
    requires f.ps < |s.heap| && f.stage == Saved
    ensures KeyAdvanced(s.(finishing := s.finishing + [f]), |s.finishing|) ==
            if f.batch == [] then s
            else HandedOver(s, f.ps, f.batch[0]).(finishing := s.finishing + [f.(batch := f.batch[1..])])
  {
    var t, k := s.(finishing := s.finishing + [f]), |s.finishing|;
    assert t.finishing[..k] + t.finishing[k + 1..] == s.finishing;
    assert t.finishing[k := f.(batch := if f.batch == [] then [] else f.batch[1..])]
           == s.finishing + [f.(batch := if f.batch == [] then [] else f.batch[1..])];
  }

  /** The last regions: hand over what is left, and be done. */
  lemma {:induction false} FlushSteps(w: World, s: State, f: Finisher)
    requires f.ps < |s.heap| && f.stage == Saved
    ensures Leads(w, s.(finishing := s.finishing + [f]), Nexts(|s.finishing|, |f.batch| + 1), AllHandedOver(s, f.ps, f.batch))
    decreases |f.batch|
  {
    var k, n := |s.finishing|, |f.batch|;
    var t := s.(finishing := s.finishing + [f]);
    LastAdvance(s, f);
    if n == 0 {
      LeadsOne(w, s, KeyNext(k));
    } else {
      FlushSteps(w, HandedOver(s, f.ps, f.batch[0]), f.(batch := f.batch[1..]));
    }
    NextLeads(w, t, k, n + 1, AllHandedOver(s, f.ps, f.batch));
  }

  /** The first regions: take the queue and save the pairing. */
  lemma TakeAndSave(w: World, s: State, ps: nat, frame: Bytes)
    requires ps < |s.heap| && Unwrap(w.suite, s.heap[ps], frame).Installed?
    ensures var p := s.heap[ps].(enclavePublicKey := Some(Unwrap(w.suite, s.heap[ps], frame).key));
            var s1 := KeyBegun(w, s, ps, frame);
            var s2 := KeyAdvanced(s1, |s.finishing|);
            && |s1.finishing| == |s2.finishing| == |s.finishing| + 1
            && KeyAdvanced(s2, |s.finishing|) ==
               s.(heap := s.heap[ps := p], queue := [], disk := Some(ToPersisted(p)),
                  finishing := s.finishing + [Finisher(ps, Saved, s.queue)])
  {
    var k, f := |s.finishing|, Finisher(ps, Saved, s.queue);
    var s1 := KeyBegun(w, s, ps, frame);
    assert s1.finishing[k := f.(stage := Taken)][k := f] == s.finishing + [f];
  }

  /** When nothing runs in between, taking the key branch apart makes no difference. */
  lemma SplitKeyIsInbound(w: World, s: State, ps: nat, frame: Bytes, medium: Medium)
    requires ps < |s.heap| && Unwrap(w.suite, s.heap[ps], frame).Installed?
    ensures Leads(w, s, [KeyBegin(ps, frame)] + Nexts(|s.finishing|, |s.queue| + 3), Inbounded(w, s, ps, frame, medium))
  {
    var k, n, t := |s.finishing|, |s.queue|, Inbounded(w, s, ps, frame, medium);
    var p := s.heap[ps].(enclavePublicKey := Some(Unwrap(w.suite, s.heap[ps], frame).key));
    var s1 := KeyBegun(w, s, ps, frame);
    TakeAndSave(w, s, ps, frame);
    FlushSteps(w, s.(heap := s.heap[ps := p], queue := [], disk := Some(ToPersisted(p))), Finisher(ps, Saved, s.queue));
    NextLeads(w, KeyAdvanced(s1, k), k, n + 2, t);
    NextLeads(w, s1, k, n + 3, t);
    assert Step(w, s, KeyBegin(ps, frame)) == s1;
    LeadsCons(w, s, KeyBegin(ps, frame), Nexts(k, n + 3), t);
  }
}
