/**
 What each region of the client achieves, said of the state before and after it without
 reference to how it is computed. `EnclaveClient` promises these of its methods.
 */
module EnclaveEffects {
  import opened Basics
  import opened Crypto
  import opened Pairing
  import opened Enclave
  import EnclaveChannels
  import EnclaveQueue
  import Lru

  /** `ps` is, up to its identity as an object, the current pairing. */
  predicate IsCurrent(s: State, ps: nat) {
    && s.current.Some? && s.current.value < |s.heap| && ps < |s.heap|
    && s.heap[s.current.value].workstationPublicKey == s.heap[ps].workstationPublicKey
  }

  // ---------- pairing ----------

  /** Pairing and profile are forgotten, in memory and stored, if `ps` is current; nothing else ever is. */
  ghost predicate UnpairEffect(s: State, t: State, ps: nat) {
    if IsCurrent(s, ps) then t == s.(current := None, me := None, disk := None, diskMe := None) else t == s
  }

  lemma UnpairHasEffect(s: State, ps: nat)
    requires ps < |s.heap|
    ensures UnpairEffect(s, Unpaired(s, ps), ps)
  {
  }

  /** The pairing that is made of these keys: known by them, without a key of the phone's, an ARN or a tracking ID. */
  ghost predicate IsFresh(p: Pairing, kp: KeyPair, name: string, version: string) {
    && p.workstationPublicKey == kp.publicKey && p.workstationSecretKey == kp.secretKey
    && p.workstationName == name && p.version == version
    && p.enclavePublicKey == None && p.snsEndpointARN == None && p.trackingID == None
  }

  /**
   A fresh pairing is current and stored, with an empty queue, or none is if there are no
   keys; what was cached and stored for an old one is gone; the rest is as it was.
   */
  ghost predicate PairEffect(s: State, t: State, keys: Option<KeyPair>, name: string, version: string) {
    && (s.current.Some? && s.current.value < |s.heap| ==> t.me == None)
    && (s.current == None ==> t.me == s.me)
    && t.diskMe == None
    && match keys
       case Some(kp) =>
         && |t.heap| == |s.heap| + 1 && t.heap[..|s.heap|] == s.heap && t.current == Some(|s.heap|)
         && IsFresh(t.heap[|s.heap|], kp, name, version)
         && t.disk == Some(ToPersisted(t.heap[|s.heap|])) && t.queue == []
         && t == s.(heap := t.heap, current := t.current, me := t.me, diskMe := None, disk := t.disk, queue := [])
       case None =>
         && (EnclaveQueue.Mirrored(s) ==> t.current == None)
         && t == s.(current := t.current, me := t.me, diskMe := None, disk := None)
  }

  lemma PairHasEffect(s: State, keys: Option<KeyPair>, name: string, version: string)
    ensures PairEffect(s, Paired(s, keys, name, version), keys, name, version)
    ensures EnclaveQueue.Mirrored(s) ==> EnclaveQueue.Mirrored(Paired(s, keys, name, version))
  {
  }

  /** Only pairing and profile come back, and the profile only if it has a public key. */
  ghost predicate RestartEffect(s: State, t: State) {
    && t.disk == s.disk && t.diskMe == s.diskMe
    && (s.diskMe.Some? && s.diskMe.value.sshWirePublicKey != [] ==> t.me == s.diskMe)
    && (s.diskMe == None || s.diskMe.value.sshWirePublicKey == [] ==> t.me == None)
    && (s.disk == None ==> t.current == None && t.heap == [])
    && (s.disk.Some? ==> t.current == Some(0) && |t.heap| == 1 && ToPersisted(t.heap[0]) == s.disk.value && t.heap[0].version == "")
    && t == Init.(heap := t.heap, current := t.current, disk := t.disk, me := t.me, diskMe := t.diskMe)
  }

  lemma RestartHasEffect(s: State)
    ensures RestartEffect(s, Restarted(s))
  {
  }

  /** A profile that was cached survives a crash, provided it is one that can be loaded. */
  lemma ProfileSurvivesCrash(w: World, events: seq<Event>, profile: Profile)
    ensures var t := Run(w, events + [CacheMe(profile)] + [Restart]);
            t.me == if profile.sshWirePublicKey == [] then None else Some(profile)
  {
    RunSnoc(w, Init, events, CacheMe(profile));
    RunSnoc(w, Init, events + [CacheMe(profile)], Restart);
    RestartHasEffect(Step(w, Run(w, events), CacheMe(profile)));
  }

  // ---------- sending ----------

  /** When nothing runs in between, the two halves of a send do what the one step does. */
  lemma SplitSendIsSend(w: World, s: State, ps: nat, m: Bytes, queueable: bool)
    requires ps < |s.heap|
    ensures Leads(w, s, [SendBegin(ps, m, queueable)] + [SendEnd(|s.waiting|)], Sent(s, ps, m, queueable))
  {
    var begin, end := SendBegin(ps, m, queueable), SendEnd(|s.waiting|);
    var t := SendBegun(s, ps, m, queueable);
    HalvesMeet(s, ps, m, queueable);
    LeadsOne(w, s, begin);
    assert Step(w, s, begin) == t;
    LeadsOne(w, t, end);
    assert Step(w, t, end) == Sent(s, ps, m, queueable);
    LeadsConcat(w, s, [begin], t, [end], Sent(s, ps, m, queueable));
  }

  lemma HalvesMeet(s: State, ps: nat, m: Bytes, queueable: bool)
    requires ps < |s.heap|
    ensures var t := SendBegun(s, ps, m, queueable);
            Sent(s, ps, m, queueable) == if |s.waiting| < |t.waiting| then SendEnded(t, |s.waiting|) else t
  {
    var t := SendBegun(s, ps, m, queueable);
    if |s.waiting| < |t.waiting| {
      var k := |s.waiting|;
      assert t.waiting[..k] + t.waiting[k + 1..] == s.waiting;
    }
  }

  /** Sender `k`, and no other, stops waiting, and its message is queued if it may be and there is room. */
  ghost predicate SendEndEffect(s: State, t: State, k: nat) {
    && k < |s.waiting| && |t.waiting| == |s.waiting| - 1
    && (forall i :: 0 <= i < |t.waiting| ==> t.waiting[i] == s.waiting[if i < k then i else i + 1])
    && t.queue == s.queue + (if s.waiting[k].queueable && |s.queue| < QUEUE_SIZE then [s.waiting[k].offer] else [])
    && t == s.(waiting := t.waiting, queue := t.queue)
  }

  lemma SendEndHasEffect(s: State, k: nat)
    requires k < |s.waiting|
    ensures SendEndEffect(s, SendEnded(s, k), k)
  {
  }

  // ---------- replies ----------

  /**
   Under the current pairing its ARN and tracking ID become the reply's where that has one,
   and the stored copy shows both; every other field and pairing, and everything under
   another pairing, stays.
   */
  ghost predicate AnnotateEffect(s: State, t: State, ps: nat, r: Response) {
    if !IsCurrent(s, ps) then t == s
    else
      var cur := s.current.value;
      var q := s.heap[cur].(snsEndpointARN := if r.snsEndpointARN.Some? then r.snsEndpointARN else s.heap[cur].snsEndpointARN,
                            trackingID := if r.trackingID.Some? then r.trackingID else s.heap[cur].trackingID);
      && t == s.(heap := s.heap[cur := q], disk := t.disk)
      && (t.disk == s.disk || t.disk == Some(ToPersisted(q)))
      && (q != s.heap[cur] || r.snsEndpointARN.Some? || EnclaveQueue.Mirrored(s) ==> t.disk == Some(ToPersisted(q)))
  }

  lemma AnnotateHasEffect(s: State, ps: nat, r: Response)
    requires ps < |s.heap|
    ensures AnnotateEffect(s, Annotated(s, ps, r), ps, r)
  {
    if IsCurrent(s, ps) {
      var cur := s.current.value;
      assert s.heap[cur := s.heap[cur]] == s.heap;
    }
  }

  lemma {:induction false} OthersStay<K, V>(c: Lru.Cache<K, V>, k: K, other: K)
    requires other != k
    ensures Lru.Lookup(Lru.Without(c, k), other) == Lru.Lookup(c, other)
    decreases |c|
  {
    if c != [] && c[0].key != k {
      OthersStay(c[1..], k, other);
      assert ([c[0]] + Lru.Without(c[1..], k))[1..] == Lru.Without(c[1..], k);
    }
  }

  lemma FrontIsFound<K, V>(e: Lru.Entry<K, V>, c: Lru.Cache<K, V>, k: K)
    ensures Lru.Lookup([e] + c, k) == if e.key == k then Some(e.value) else Lru.Lookup(c, k)
  {
    assert ([e] + c)[1..] == c;
  }

  /** Looking a key up changes nothing that a lookup can see. */
  lemma TouchFindsSame<K(!new), V(!new)>(c: Lru.Cache<K, V>, k: K)
    ensures forall x :: Lru.Lookup(Lru.Touch(c, k), x) == Lru.Lookup(c, x)
    ensures Lru.Has(c, k) ==> Lru.Touch(c, k)[0].key == k
  {
    if Lru.Has(c, k) {
      var e := Lru.Entry(k, Lru.Lookup(c, k).value);
      forall x ensures Lru.Lookup(Lru.Touch(c, k), x) == Lru.Lookup(c, x) {
        FrontIsFound(e, Lru.Without(c, k), x);
        if x != k { OthersStay(c, k, x); }
      }
    }
  }

  lemma WithoutFinds<K(!new), V(!new)>(c: Lru.Cache<K, V>, k: K)
    requires Lru.Distinct(c)
    ensures forall x :: Lru.Lookup(Lru.Without(c, k), x) == if x == k then None else Lru.Lookup(c, x)
  {
    Lru.WithoutKeeps(c, k);
    forall x ensures Lru.Lookup(Lru.Without(c, k), x) == if x == k then None else Lru.Lookup(c, x) {
      if x != k { OthersStay(c, k, x); }
    }
  }

  /**
   A reply reaches the channel registered under its ID and no other. An ACK is remembered
   and deregisters nothing; anything else deregisters its own ID and no other.
   */
  ghost predicate AnswerEffect(s: State, t: State, r: Response, medium: Medium) {
    && t == s.(sent := t.sent, callbacks := t.callbacks, acked := t.acked)
    && (forall id :: Lru.Lookup(t.callbacks, id) == if id == r.id && !r.ack then None else Lru.Lookup(s.callbacks, id))
    && AckEffect(s, t, r)
    && |t.sent| == |s.sent|
    && forall ch :: 0 <= ch < |s.sent| ==>
         t.sent[ch] == s.sent[ch] + if Lru.Lookup(s.callbacks, r.id) == Some(ch) then [Reply(r, medium)] else []
  }

  /** The acknowledged IDs: that of an ACK is among them, and while there is room the others stay. */
  ghost predicate AckEffect(s: State, t: State, r: Response) {
    && (!r.ack ==> t.acked == s.acked)
    && (r.ack ==>
          && Lru.Has(t.acked, r.id)
          && (forall id :: Lru.Has(t.acked, id) ==> id == r.id || Lru.Has(s.acked, id))
          && (|s.acked| < TABLE_SIZE || Lru.Has(s.acked, r.id) ==> forall id :: Lru.Has(s.acked, id) ==> Lru.Has(t.acked, id)))
  }

  lemma AddReplaces<K(!new), V(!new)>(c: Lru.Cache<K, V>, k: K, v: V, max: nat)
    requires Lru.Has(c, k)
    ensures forall x :: Lru.Lookup(Lru.Add(c, k, v, max), x) == if x == k then Some(v) else Lru.Lookup(c, x)
  {
    var e, rest := Lru.Entry(k, v), Lru.Without(c, k);
    forall x ensures Lru.Lookup([e] + rest, x) == if x == k then Some(v) else Lru.Lookup(c, x) {
      FrontIsFound(e, rest, x);
      if x != k { OthersStay(c, k, x); }
    }
  }

  lemma AddInserts<K(!new), V(!new)>(c: Lru.Cache<K, V>, k: K, v: V, max: nat)
    requires !Lru.Has(c, k) && |c| < max
    ensures forall x :: Lru.Lookup(Lru.Add(c, k, v, max), x) == if x == k then Some(v) else Lru.Lookup(c, x)
  {
    var e := Lru.Entry(k, v);
    forall x ensures Lru.Lookup([e] + c, x) == if x == k then Some(v) else Lru.Lookup(c, x) {
      FrontIsFound(e, c, x);
    }
  }

  lemma AddHas<K(!new), V(!new)>(c: Lru.Cache<K, V>, k: K, v: V, max: nat)
    requires max != 0
    ensures var r := Lru.Add(c, k, v, max);
            && Lru.Has(r, k)
            && (forall x :: Lru.Has(r, x) ==> x == k || Lru.Has(c, x))
            && (|c| < max || Lru.Has(c, k) ==> forall x :: Lru.Has(c, x) ==> Lru.Has(r, x))
  {
    var r := Lru.Add(c, k, v, max);
    assert r[0] == Lru.Entry(k, v);
    if Lru.Has(c, k) {
      AddReplaces(c, k, v, max);
      forall x ensures Lru.Has(r, x) <==> x == k || Lru.Has(c, x) { assert Lru.Lookup(r, x).Some? <==> Lru.Has(r, x); }
    } else if |c| < max {
      AddInserts(c, k, v, max);
      forall x ensures Lru.Has(r, x) <==> x == k || Lru.Has(c, x) { assert Lru.Lookup(r, x).Some? <==> Lru.Has(r, x); }
    } else {
      assert forall i :: 0 < i < |r| ==> r[i] == c[i - 1];
    }
  }

  lemma AckHasEffect(s: State, r: Response, medium: Medium)
    ensures AckEffect(s, Answered(s, r, medium), r)
  {
    if r.ack { AddHas(s.acked, r.id, (), TABLE_SIZE); }
  }

  lemma AnswerHasEffect(s: State, r: Response, medium: Medium)
    requires Lru.Distinct(s.callbacks)
    ensures AnswerEffect(s, Answered(s, r, medium), r, medium)
  {
    AckHasEffect(s, r, medium);
    EnclaveChannels.WithoutTouch(s.callbacks, r.id);
    WithoutFinds(s.callbacks, r.id);
    TouchFindsSame(s.callbacks, r.id);
  }

  /**
   An unpair forgets the pairing if it comes from the current one, and empties the table in
   any case. Any other reply annotates the current pairing and answers its request.
   */
  ghost predicate HandleEffect(s: State, t: State, ps: nat, r: Response, medium: Medium) {
    if r.unpair then t.callbacks == [] && UnpairEffect(s, t.(sent := s.sent, callbacks := s.callbacks), ps)
    else
      var u := t.(sent := s.sent, callbacks := s.callbacks, acked := s.acked);
      AnnotateEffect(s, u, ps, r) && AnswerEffect(u, t, r, medium)
  }

  lemma HandleHasEffect(s: State, ps: nat, r: Response, medium: Medium)
    requires ps < |s.heap| && Lru.Distinct(s.callbacks)
    ensures HandleEffect(s, Handled(s, ps, r, medium), ps, r, medium)
  {
    if r.unpair {
      UnpairHasEffect(s, ps);
    } else {
      var u := Annotated(s, ps, r);
      AnnotateHasEffect(s, ps, r);
      AnswerHasEffect(u, r, medium);
      var t := Answered(u, r, medium);
      assert t.(sent := s.sent, callbacks := s.callbacks, acked := s.acked) == u;
    }
  }

  // ---------- requests ----------

  lemma {:induction false} DropLastFinds<K, V>(c: Lru.Cache<K, V>, x: K)
    requires c != [] && Lru.Distinct(c)
    ensures Lru.Lookup(c[..|c| - 1], x) == if x == c[|c| - 1].key then None else Lru.Lookup(c, x)
    decreases |c|
  {
    var front := c[..|c| - 1];
    if |c| > 1 && c[0].key != x {
      assert front[1..] == c[1..][..|c[1..]| - 1];
      DropLastFinds(c[1..], x);
    }
  }

  /** Who is pushed out of a full table by a new key. */
  predicate PushedOut(c: Lru.Cache<RequestId, nat>, id: RequestId, other: RequestId) {
    |c| >= TABLE_SIZE && !Lru.Has(c, id) && other == c[|c| - 1].key
  }

  /** A new, empty channel is found under `id`; every other ID keeps its channel, but for the one that is pushed out. */
  ghost predicate RegisterEffect(s: State, t: State, id: RequestId) {
    && TableFinds(s.callbacks, t.callbacks, id, |s.sent|)
    && t.sent == s.sent + [[]] && t.owner == s.owner + [id] && t.taken == s.taken + [0]
    && t == s.(callbacks := t.callbacks, sent := t.sent, owner := t.owner, taken := t.taken, displaced := t.displaced)
  }

  /** The table after a registration, as far as lookups can tell. */
  ghost predicate TableFinds(c: Lru.Cache<RequestId, nat>, r: Lru.Cache<RequestId, nat>, id: RequestId, ch: nat) {
    forall x :: Lru.Lookup(r, x) == if x == id then Some(ch) else if PushedOut(c, id, x) then None else Lru.Lookup(c, x)
  }

  lemma FullTableFinds(c: Lru.Cache<RequestId, nat>, id: RequestId, ch: nat)
    requires Lru.Distinct(c) && |c| == TABLE_SIZE && !Lru.Has(c, id)
    ensures TableFinds(c, Lru.Add(c, id, ch, TABLE_SIZE), id, ch)
  {
    var e, front, r := Lru.Entry(id, ch), c[..|c| - 1], Lru.Add(c, id, ch, TABLE_SIZE);
    assert r == [e] + front;
    forall x ensures Lru.Lookup(r, x) == if x == id then Some(ch) else if PushedOut(c, id, x) then None else Lru.Lookup(c, x) {
      FrontIsFound(e, front, x);
      DropLastFinds(c, x);
    }
  }

  lemma AddedTableFinds(c: Lru.Cache<RequestId, nat>, id: RequestId, ch: nat)
    requires Lru.Distinct(c) && |c| <= TABLE_SIZE
    ensures TableFinds(c, Lru.Add(c, id, ch, TABLE_SIZE), id, ch)
  {
    if Lru.Has(c, id) {
      AddReplaces(c, id, ch, TABLE_SIZE);
    } else if |c| < TABLE_SIZE {
      AddInserts(c, id, ch, TABLE_SIZE);
    } else {
      FullTableFinds(c, id, ch);
    }
  }

  lemma RegisterHasEffect(s: State, id: RequestId)
    requires Lru.Distinct(s.callbacks) && |s.callbacks| <= TABLE_SIZE
    ensures RegisterEffect(s, Registered(s, id), id)
  {
    AddedTableFinds(s.callbacks, id, |s.sent|);
  }

  /** The channel registered under `id` gets a nil, and the ID is deregistered; no other channel or ID is touched. */
  ghost predicate GiveUpEffect(s: State, t: State, id: RequestId) {
    && t == s.(callbacks := t.callbacks, sent := t.sent) && |t.sent| == |s.sent|
    && (forall x :: Lru.Lookup(t.callbacks, x) == if x == id then None else Lru.Lookup(s.callbacks, x))
    && (forall ch :: 0 <= ch < |s.sent| ==>
          t.sent[ch] == s.sent[ch] + if Lru.Lookup(s.callbacks, id) == Some(ch) then [Nil] else [])
  }

  lemma GiveUpHasEffect(s: State, id: RequestId)
    requires Lru.Distinct(s.callbacks)
    ensures GiveUpEffect(s, GivenUp(s, id), id)
  {
    WithoutFinds(s.callbacks, id);
    if Lru.Lookup(s.callbacks, id) == None { Lru.WithoutNothing(s.callbacks, id); }
  }

  // ---------- frames ----------

  /** A reply that the phone boxes for the current key reaches handleMessage. */
  lemma ReplyIsHandled(w: World, s: State, ps: nat, phone: Key, work: Key, n: Nonce, m: Bytes, r: Response, medium: Medium)
    requires Correct(w.suite) && ps < |s.heap| && w.decode(m) == Some(r)
    requires s.heap[ps].enclavePublicKey == Some(w.suite.pub(phone))
    requires s.heap[ps].workstationSecretKey == work && s.heap[ps].workstationPublicKey == w.suite.pub(work)
    ensures var box := SodiumBox(w.suite, m, w.suite.pub(work), phone, n);
            box.Ok? && Inbounded(w, s, ps, [0] + box.value, medium) == Handled(s, ps, r, medium)
  {
    BoxRoundTrip(w.suite, m, phone, work, n);
    var c := SodiumBox(w.suite, m, w.suite.pub(work), phone, n).value;
    assert ([0] + c)[1..] == c;
  }

  /** A key that the phone wraps for a pairing without one is installed there. */
  lemma KeyIsInstalled(w: World, s: State, ps: nat, phone: Key, work: Key, ephemeral: Key, medium: Medium)
    requires Correct(w.suite) && ps < |s.heap| && s.heap[ps].enclavePublicKey == None
    requires s.heap[ps].workstationSecretKey == work && s.heap[ps].workstationPublicKey == w.suite.pub(work)
    ensures var frame := WrapKey(w.suite, w.suite.pub(phone), w.suite.pub(work), ephemeral);
            && frame.Ok?
            && var t := Inbounded(w, s, ps, frame.value, medium);
            && |t.heap| == |s.heap| && t.heap[ps] == s.heap[ps].(enclavePublicKey := Some(w.suite.pub(phone)))
            && t.disk == Some(ToPersisted(t.heap[ps])) && t.queue == [] && t.wire == s.wire + Batch(ps, s.queue)
  {
    SealRoundTrip(w.suite, w.suite.pub(phone), work, ephemeral);
    var sealed := SodiumBoxSeal(w.suite, w.suite.pub(phone), w.suite.pub(work), ephemeral).value;
    assert ([HEADER_WRAPPED_PUBLIC_KEY] + sealed)[1..] == sealed;
    InstalledIs(w, s, ps, [HEADER_WRAPPED_PUBLIC_KEY] + sealed, medium);
  }

  // ---------- every step ----------

  /** What is different after event `e`; the frames and sends have laws of their own. */
  ghost predicate StepEffect(s: State, e: Event, t: State) {
    match e
    case Pair(keys, name, version) => PairEffect(s, t, keys, name, version)
    case Unpair => s.current.Some? && s.current.value < |s.heap| ==> UnpairEffect(s, t, s.current.value)
    case Restart => RestartEffect(s, t)
    case Register(id) => RegisterEffect(s, t, id)
    case Take(ch) => t == s.(taken := t.taken)
    case SendEnd(k) => k < |s.waiting| ==> SendEndEffect(s, t, k)
    case Deliver(ps, r, medium) => ps < |s.heap| ==> HandleEffect(s, t, ps, r, medium)
    case Poll(id) => t == s.(callbacks := t.callbacks, acked := t.acked) && FindsSame(s, t)
    case GiveUp(id) => GiveUpEffect(s, t, id)
    case CacheMe(profile) => t == s.(me := Some(profile), diskMe := Some(profile))
    case _ => true
  }

  ghost predicate FindsSame(s: State, t: State) {
    && (forall x :: Lru.Lookup(t.callbacks, x) == Lru.Lookup(s.callbacks, x))
    && (forall x :: Lru.Lookup(t.acked, x) == Lru.Lookup(s.acked, x))
  }

  lemma StepHasEffect(w: World, s: State, e: Event)
    requires EnclaveChannels.ChannelInv(s)
    ensures StepEffect(s, e, Step(w, s, e))
  {
    var t := Step(w, s, e);
    match e
    case Pair(keys, name, version) => assert t == Paired(s, keys, name, version); PairHasEffect(s, keys, name, version);
    case Unpair => if s.current.Some? && s.current.value < |s.heap| { UnpairHasEffect(s, s.current.value); }
    case Restart => assert t == Restarted(s); RestartHasEffect(s);
    case Register(id) => assert t == Registered(s, id); RegisterHasEffect(s, id);
    case SendEnd(k) => if k < |s.waiting| { assert t == SendEnded(s, k); SendEndHasEffect(s, k); }
    case Deliver(ps, r, medium) =>
      if ps < |s.heap| { assert t == Handled(s, ps, r, medium); HandleHasEffect(s, ps, r, medium); }
    case Poll(id) => assert t == Polled(s, id); TouchFindsSame(s.callbacks, id); TouchFindsSame(s.acked, id);
    case GiveUp(id) => assert t == GivenUp(s, id); GiveUpHasEffect(s, id);
    case _ =>
  }

  /** In every run, every step does what its event says. */
  lemma EveryStepHasEffect(w: World, events: seq<Event>, e: Event)
    ensures StepEffect(Run(w, events), e, Run(w, events + [e]))
  {
    EnclaveChannels.RunKeepsChannels(w, Init, events);
    RunSnoc(w, Init, events, e);
    StepHasEffect(w, Run(w, events), e);
  }
}
