/**
 What a waiter can see on its callback channel, in every interleaving of the
 steps of `Enclave`: including two-step sends, replies handled for a pairing
 that was replaced meanwhile, reused request IDs and a full table.
 */
module EnclaveChannels {
  import opened Basics
  import opened Pairing
  import opened Enclave
  import Lru

  predicate IsAck(item: Item) {
    item.Reply? && item.response.ack
  }

  predicate CarriesId(item: Item, id: RequestId) {
    item.Reply? ==> item.response.id == id
  }

  ghost predicate AllAcks(log: seq<Item>) {
    forall i :: 0 <= i < |log| ==> IsAck(log[i])
  }

  /** ACKs, then at most one terminal item; every reply answers request `id`. */
  ghost predicate WellFormed(log: seq<Item>, id: RequestId) {
    && (forall i :: 0 <= i < |log| ==> CarriesId(log[i], id))
    && (forall i :: 0 <= i < |log| - 1 ==> IsAck(log[i]))
  }

  predicate Closed(log: seq<Item>) {
    |log| > 0 && !IsAck(log[|log| - 1])
  }

  predicate Pending(s: State, ch: nat) {
    ch < |s.owner| && Lru.Entry(s.owner[ch], ch) in s.callbacks
  }

  ghost predicate TableInv(s: State) {
    && |s.owner| == |s.taken| == |s.sent|
    && |s.callbacks| <= TABLE_SIZE && |s.acked| <= TABLE_SIZE
    && Lru.Distinct(s.callbacks)
    && forall e :: e in s.callbacks ==>
         e.value < |s.sent| && s.owner[e.value] == e.key && AllAcks(s.sent[e.value])
  }

  ghost predicate LogInv(s: State) {
    && |s.owner| == |s.taken| == |s.sent|
    && forall ch :: 0 <= ch < |s.sent| ==> WellFormed(s.sent[ch], s.owner[ch]) && s.taken[ch] <= |s.sent[ch]|
  }

  /** Every channel is waiting in the table, was pushed out of it, or got its terminal item. */
  ghost predicate FateInv(s: State) {
    && (forall ch :: ch in s.displaced ==> ch < |s.sent| && !Pending(s, ch) && AllAcks(s.sent[ch]))
    && (forall ch :: 0 <= ch < |s.sent| ==> Pending(s, ch) || ch in s.displaced || Closed(s.sent[ch]))
  }

  ghost predicate ChannelInv(s: State) {
    TableInv(s) && LogInv(s) && FateInv(s)
  }

  // ---------- one step ----------

  lemma SameTableKeeps(s: State, t: State)
    requires ChannelInv(s)
    requires t.sent == s.sent && t.owner == s.owner && t.taken == s.taken && t.displaced == s.displaced
    requires |t.acked| <= TABLE_SIZE
    requires Lru.Distinct(t.callbacks) && |t.callbacks| == |s.callbacks|
    requires forall e :: e in t.callbacks <==> e in s.callbacks
    ensures ChannelInv(t)
  {
    assert forall ch: nat :: Pending(t, ch) <==> Pending(s, ch);
  }

  /** A terminal item goes onto the channel and the channel leaves the table. */
  lemma CloseKeeps(s: State, e: Lru.Entry<RequestId, nat>, item: Item, rest: Lru.Cache<RequestId, nat>)
    requires ChannelInv(s)
    requires e in s.callbacks && !IsAck(item) && CarriesId(item, e.key)
    requires Lru.Distinct(rest) && |rest| <= TABLE_SIZE
    requires forall x :: x in rest <==> x in s.callbacks && x.key != e.key
    ensures ChannelInv(s.(sent := Put(s.sent, e.value, item), callbacks := rest))
  {
    var t := s.(sent := Put(s.sent, e.value, item), callbacks := rest);
    assert forall ch: nat :: Pending(t, ch) <==> Pending(s, ch) && ch != e.value by {
      forall ch: nat | Pending(s, ch) && ch != e.value ensures Pending(t, ch) {
        var x := Lru.Entry(s.owner[ch], ch);
        if x.key == e.key {
          Lru.LookupUnique(s.callbacks, x);
          Lru.LookupUnique(s.callbacks, e);
        }
      }
    }
    assert Pending(s, e.value);
    assert forall x :: x in rest ==> x.value != e.value;
  }

  lemma AckKeeps(s: State, e: Lru.Entry<RequestId, nat>, item: Item)
    requires ChannelInv(s)
    requires e in s.callbacks && IsAck(item) && CarriesId(item, e.key)
    ensures ChannelInv(s.(sent := Put(s.sent, e.value, item)))
  {
    var t := s.(sent := Put(s.sent, e.value, item));
    assert forall ch: nat :: Pending(t, ch) <==> Pending(s, ch);
    assert Pending(s, e.value);
  }

  lemma RegisterKeeps(s: State, id: RequestId)
    requires ChannelInv(s)
    ensures ChannelInv(Registered(s, id))
  {
    var t := Registered(s, id);
    var ch: nat := |s.sent|;
    Lru.AddKeeps(s.callbacks, id, ch, TABLE_SIZE);
    var out := Lru.Displaced(s.callbacks, id, TABLE_SIZE);
    assert t.sent[ch] == [] && t.owner[ch] == id;
    assert forall c: nat :: c < |s.sent| ==> t.sent[c] == s.sent[c] && t.owner[c] == s.owner[c];
    forall c: nat | c < ch && Pending(s, c)
      ensures Pending(t, c) || (out.Some? && c == out.value)
    {
      var e := Lru.Entry(s.owner[c], c);
      assert e in s.callbacks && e != Lru.Entry(id, ch);
    }
    forall c | c in t.displaced
      ensures c < |t.sent| && !Pending(t, c) && AllAcks(t.sent[c])
    {
      if c in s.displaced {
        assert !Pending(s, c);
      } else {
        var e :| e in s.callbacks && e.value == c && (e in t.callbacks ==> e == Lru.Entry(id, ch));
        assert e.value != ch;
      }
    }
  }

  lemma GiveUpKeeps(s: State, id: RequestId)
    requires ChannelInv(s)
    ensures ChannelInv(GivenUp(s, id))
  {
    match Lru.Lookup(s.callbacks, id)
    case None =>
    case Some(ch) =>
      Lru.WithoutKeeps(s.callbacks, id);
      CloseKeeps(s, Lru.Entry(id, ch), Nil, Lru.Without(s.callbacks, id));
  }

  lemma WithoutTouch<K, V>(c: Lru.Cache<K, V>, k: K)
    ensures Lru.Without(Lru.Touch(c, k), k) == Lru.Without(c, k)
  {
  }

  lemma AnswerKeeps(s: State, r: Response, medium: Medium)
    requires ChannelInv(s)
    ensures ChannelInv(Answered(s, r, medium))
  {
    Lru.TouchKeeps(s.callbacks, r.id);
    Lru.WithoutKeeps(s.callbacks, r.id);
    WithoutTouch(s.callbacks, r.id);
    var t := Answered(s, r, medium);
    match Lru.Lookup(s.callbacks, r.id)
    case None =>
      assert forall e :: e in s.callbacks ==> e.key != r.id by {
        forall e | e in s.callbacks ensures e.key != r.id { Lru.LookupUnique(s.callbacks, e); }
      }
      SameTableKeeps(s, t);
    case Some(ch) =>
      var e := Lru.Entry(r.id, ch);
      if r.ack {
        AckKeeps(s, e, Reply(r, medium));
        SameTableKeeps(s.(sent := Put(s.sent, ch, Reply(r, medium))), t);
      } else {
        CloseKeeps(s, e, Reply(r, medium), Lru.Without(s.callbacks, r.id));
      }
  }

  lemma {:induction false} DrainKeeps(s: State)
    requires ChannelInv(s)
    ensures ChannelInv(s.(sent := Drained(s.sent, s.callbacks), callbacks := []))
    decreases |s.callbacks|
  {
    if s.callbacks == [] {
      assert s == s.(sent := Drained(s.sent, s.callbacks), callbacks := []);
    } else {
      var n := |s.callbacks| - 1;
      var e := s.callbacks[n];
      var rest := s.callbacks[..n];
      assert s.callbacks == rest + [e];
      assert forall x :: x in rest ==> x in s.callbacks && x.key != e.key by {
        forall x | x in rest ensures x in s.callbacks && x.key != e.key {
          var i :| 0 <= i < |rest| && rest[i] == x;
          assert s.callbacks[i] == x;
        }
      }
      CloseKeeps(s, e, Nil, rest);
      DrainKeeps(s.(sent := Put(s.sent, e.value, Nil), callbacks := rest));
    }
  }

  lemma HandleKeeps(s: State, ps: nat, r: Response, medium: Medium)
    requires ChannelInv(s) && ps < |s.heap|
    ensures ChannelInv(Handled(s, ps, r, medium))
  {
    if r.unpair {
      SameTableKeeps(s, Unpaired(s, ps));
      DrainKeeps(Unpaired(s, ps));
    } else {
      SameTableKeeps(s, Annotated(s, ps, r));
      AnswerKeeps(Annotated(s, ps, r), r, medium);
    }
  }

  lemma InboundKeeps(w: World, s: State, ps: nat, frame: Bytes, medium: Medium)
    requires ChannelInv(s) && ps < |s.heap|
    ensures ChannelInv(Inbounded(w, s, ps, frame, medium))
  {
    match Unwrap(w.suite, s.heap[ps], frame)
    case Failed(_) =>
    case Ignored =>
    case Installed(key) =>
      var p := s.heap[ps].(enclavePublicKey := Some(key));
      AllHandedOverIs(s.(heap := s.heap[ps := p], queue := [], disk := Some(ToPersisted(p))), ps, s.queue);
      SameTableKeeps(s, Inbounded(w, s, ps, frame, medium));
    case Ciphertext(c) =>
      match DecryptMessage(w.suite, s.heap[ps], c)
      case Err(_) =>
      case Ok(m) =>
        match w.decode(m)
        case None =>
        case Some(r) => HandleKeeps(s, ps, r, medium);
  }

  lemma PollKeeps(s: State, id: RequestId)
    requires ChannelInv(s)
    ensures ChannelInv(Polled(s, id))
  {
    Lru.TouchKeeps(s.callbacks, id);
    SameTableKeeps(s, Polled(s, id));
  }

  lemma TakeKeeps(s: State, ch: nat)
    requires ChannelInv(s)
    ensures ChannelInv(Took(s, ch))
  {
    assert forall c: nat :: Pending(Took(s, ch), c) <==> Pending(s, c);
  }

  lemma RestartKeeps(s: State)
    ensures ChannelInv(Restarted(s))
  {
  }

  predicate TouchesChannels(e: Event) {
    e.Register? || e.GiveUp? || e.Poll? || e.Inbound? || e.Deliver? || e.Take? || e.Restart?
  }

  lemma OtherStep(w: World, s: State, e: Event)
    requires !TouchesChannels(e)
    ensures var t := Step(w, s, e);
            && t.sent == s.sent && t.owner == s.owner && t.taken == s.taken && t.displaced == s.displaced
            && t.acked == s.acked && t.callbacks == s.callbacks
  {
  }

  predicate IsReceipt(e: Event) {
    e.Inbound? || e.Deliver?
  }

  lemma ReceiptKeeps(w: World, s: State, e: Event)
    requires ChannelInv(s) && IsReceipt(e)
    ensures ChannelInv(Step(w, s, e))
  {
    var t := Step(w, s, e);
    if e.ps >= |s.heap| {
      assert t == s;
    } else if e.Inbound? {
      assert t == Inbounded(w, s, e.ps, e.frame, e.medium);
      InboundKeeps(w, s, e.ps, e.frame, e.medium);
    } else {
      assert t == Handled(s, e.ps, e.response, e.medium);
      HandleKeeps(s, e.ps, e.response, e.medium);
    }
  }

  lemma RequestStepKeeps(w: World, s: State, e: Event)
    requires ChannelInv(s) && TouchesChannels(e) && !IsReceipt(e)
    ensures ChannelInv(Step(w, s, e))
  {
    var t := Step(w, s, e);
    match e
    case Register(id) => assert t == Registered(s, id); RegisterKeeps(s, id);
    case GiveUp(id) => assert t == GivenUp(s, id); GiveUpKeeps(s, id);
    case Poll(id) => assert t == Polled(s, id); PollKeeps(s, id);
    case Take(ch) => assert t == Took(s, ch); TakeKeeps(s, ch);
    case Restart => assert t == Restarted(s); RestartKeeps(s);
  }

  lemma StepKeepsChannels(w: World, s: State, e: Event)
    requires ChannelInv(s)
    ensures ChannelInv(Step(w, s, e))
  {
    if IsReceipt(e) {
      ReceiptKeeps(w, s, e);
    } else if TouchesChannels(e) {
      RequestStepKeeps(w, s, e);
    } else {
      OtherStep(w, s, e);
      SameTableKeeps(s, Step(w, s, e));
    }
  }

  // ---------- every run ----------

  lemma {:induction false} RunKeepsChannels(w: World, s: State, events: seq<Event>)
    requires ChannelInv(s)
    ensures ChannelInv(RunFrom(w, s, events))
    decreases |events|
  {
    if events != [] {
      var n := |events| - 1;
      RunKeepsChannels(w, s, events[..n]);
      StepKeepsChannels(w, RunFrom(w, s, events[..n]), events[n]);
    }
  }

  /**
   In every run, a channel carries ACKs for its own request and then at most one
   terminal item, and it is in exactly one of three conditions: waiting in the
   table, pushed out of the table without a terminal item, or closed by one.
   */
  lemma ChannelProtocol(w: World, events: seq<Event>, ch: nat)
    requires ch < |Run(w, events).sent|
    ensures var s := Run(w, events);
            && |s.owner| == |s.sent|
            && (forall i :: 0 <= i < |s.sent[ch]| ==> CarriesId(s.sent[ch][i], s.owner[ch]))
            && (forall i :: 0 <= i < |s.sent[ch]| - 1 ==> IsAck(s.sent[ch][i]))
            && (Pending(s, ch) ==> ch !in s.displaced && !Closed(s.sent[ch]))
            && (ch in s.displaced ==> !Closed(s.sent[ch]))
            && (Pending(s, ch) || ch in s.displaced || Closed(s.sent[ch]))
            && |s.callbacks| <= TABLE_SIZE && |s.acked| <= TABLE_SIZE
  {
    RunKeepsChannels(w, Init, events);
  }

  // ---------- nothing after deregistration ----------

  ghost predicate NoRestart(events: seq<Event>) {
    forall i :: 0 <= i < |events| ==> !events[i].Restart?
  }

  lemma {:induction false} DrainedIs(sent: seq<seq<Item>>, callbacks: Lru.Cache<RequestId, nat>, ch: nat)
    requires ch < |sent|
    requires forall i, j :: 0 <= i < j < |callbacks| ==> callbacks[i].value != callbacks[j].value
    ensures Drained(sent, callbacks)[ch] ==
            if exists i :: 0 <= i < |callbacks| && callbacks[i].value == ch then sent[ch] + [Nil] else sent[ch]
    decreases |callbacks|
  {
    if callbacks != [] {
      var n := |callbacks| - 1;
      DrainedIs(Put(sent, callbacks[n].value, Nil), callbacks[..n], ch);
      if i :| 0 <= i < |callbacks| && callbacks[i].value == ch {
        if i < n { assert callbacks[..n][i].value == ch; }
      }
    }
  }

  /** The remote unpair gives every pending channel exactly one nil, and no other channel anything. */
  lemma UnpairCancelsAll(s: State, ps: nat, r: Response, medium: Medium, ch: nat)
    requires ChannelInv(s) && ps < |s.heap| && r.unpair && ch < |s.sent|
    ensures var t := Handled(s, ps, r, medium);
            && t.callbacks == []
            && t.sent[ch] == if Pending(s, ch) then s.sent[ch] + [Nil] else s.sent[ch]
  {
    var u := Unpaired(s, ps);
    forall i, j | 0 <= i < j < |u.callbacks| ensures u.callbacks[i].value != u.callbacks[j].value {
      assert u.callbacks[i] in s.callbacks && u.callbacks[j] in s.callbacks;
    }
    DrainedIs(u.sent, u.callbacks, ch);
    if i :| 0 <= i < |u.callbacks| && u.callbacks[i].value == ch {
      assert u.callbacks[i] in s.callbacks;
      assert Pending(s, ch);
    }
    if Pending(s, ch) {
      var i :| 0 <= i < |s.callbacks| && s.callbacks[i] == Lru.Entry(s.owner[ch], ch);
      assert u.callbacks[i].value == ch;
    }
  }

  /** `ch` has the same owner and the same items in `t` as in `s`, and still does not wait in the table. */
  ghost predicate Frozen(s: State, t: State, ch: nat) {
    && ch < |s.sent| <= |t.sent| == |t.owner| && ch < |s.owner|
    && t.owner[ch] == s.owner[ch] && t.sent[ch] == s.sent[ch] && !Pending(t, ch)
  }

  lemma AnsweredFrozen(s: State, r: Response, medium: Medium, ch: nat)
    requires ChannelInv(s) && ch < |s.sent| && !Pending(s, ch)
    ensures Frozen(s, Answered(s, r, medium), ch)
  {
    Lru.TouchKeeps(s.callbacks, r.id);
    Lru.WithoutKeeps(s.callbacks, r.id);
    WithoutTouch(s.callbacks, r.id);
    if Lru.Lookup(s.callbacks, r.id).Some? {
      var c := Lru.Lookup(s.callbacks, r.id).value;
      assert Lru.Entry(r.id, c) in s.callbacks;
      assert Pending(s, c);
    }
  }

  lemma HandledFrozen(s: State, ps: nat, r: Response, medium: Medium, ch: nat)
    requires ChannelInv(s) && ps < |s.heap| && ch < |s.sent| && !Pending(s, ch)
    ensures Frozen(s, Handled(s, ps, r, medium), ch)
  {
    if r.unpair {
      UnpairCancelsAll(s, ps, r, medium, ch);
    } else {
      var u := Annotated(s, ps, r);
      SameTableKeeps(s, u);
      AnsweredFrozen(u, r, medium, ch);
    }
  }

  lemma GiveUpFrozen(s: State, id: RequestId, ch: nat)
    requires ChannelInv(s) && ch < |s.sent| && !Pending(s, ch)
    ensures Frozen(s, GivenUp(s, id), ch)
  {
    Lru.WithoutKeeps(s.callbacks, id);
    if Lru.Lookup(s.callbacks, id).Some? {
      var c := Lru.Lookup(s.callbacks, id).value;
      assert Lru.Entry(id, c) in s.callbacks;
      assert Pending(s, c);
    }
  }

  lemma RegisterFrozen(s: State, id: RequestId, ch: nat)
    requires ChannelInv(s) && ch < |s.sent| && !Pending(s, ch)
    ensures Frozen(s, Registered(s, id), ch)
  {
    Lru.AddKeeps(s.callbacks, id, |s.sent|, TABLE_SIZE);
  }

  lemma InboundFrozen(w: World, s: State, ps: nat, frame: Bytes, medium: Medium, ch: nat)
    requires ChannelInv(s) && ps < |s.heap| && ch < |s.sent| && !Pending(s, ch)
    ensures Frozen(s, Inbounded(w, s, ps, frame, medium), ch)
  {
    match Unwrap(w.suite, s.heap[ps], frame)
    case Installed(key) =>
      var p := s.heap[ps].(enclavePublicKey := Some(key));
      AllHandedOverIs(s.(heap := s.heap[ps := p], queue := [], disk := Some(ToPersisted(p))), ps, s.queue);
    case Ciphertext(c) =>
      var m := DecryptMessage(w.suite, s.heap[ps], c);
      if m.Ok? && w.decode(m.value).Some? {
        HandledFrozen(s, ps, w.decode(m.value).value, medium, ch);
      }
    case _ =>
  }

  lemma PollFrozen(s: State, id: RequestId, ch: nat)
    requires ChannelInv(s) && ch < |s.sent| && !Pending(s, ch)
    ensures Frozen(s, Polled(s, id), ch)
  {
    Lru.TouchKeeps(s.callbacks, id);
  }

  lemma TakeFrozen(s: State, c: nat, ch: nat)
    requires ChannelInv(s) && ch < |s.sent| && !Pending(s, ch)
    ensures Frozen(s, Took(s, c), ch)
  {
  }

  lemma StepFrozen(w: World, s: State, e: Event, ch: nat)
    requires ChannelInv(s) && ch < |s.sent| && !Pending(s, ch) && !e.Restart?
    ensures Frozen(s, Step(w, s, e), ch)
  {
    if IsReceipt(e) {
      ReceiptFrozen(w, s, e, ch);
    } else if TouchesChannels(e) {
      RequestStepFrozen(w, s, e, ch);
    } else {
      OtherStep(w, s, e);
    }
  }

  lemma RequestStepFrozen(w: World, s: State, e: Event, ch: nat)
    requires ChannelInv(s) && ch < |s.sent| && !Pending(s, ch)
    requires TouchesChannels(e) && !IsReceipt(e) && !e.Restart?
    ensures Frozen(s, Step(w, s, e), ch)
  {
    var t := Step(w, s, e);
    if e.Register? {
      assert t == Registered(s, e.id);
      RegisterFrozen(s, e.id, ch);
    } else if e.GiveUp? {
      assert t == GivenUp(s, e.id);
      GiveUpFrozen(s, e.id, ch);
    } else if e.Poll? {
      assert t == Polled(s, e.id);
      PollFrozen(s, e.id, ch);
    } else {
      assert t == Took(s, e.ch);
      TakeFrozen(s, e.ch, ch);
    }
  }

  lemma ReceiptFrozen(w: World, s: State, e: Event, ch: nat)
    requires ChannelInv(s) && ch < |s.sent| && !Pending(s, ch) && IsReceipt(e)
    ensures Frozen(s, Step(w, s, e), ch)
  {
    var t := Step(w, s, e);
    if e.ps >= |s.heap| {
      assert t == s;
    } else if e.Inbound? {
      assert t == Inbounded(w, s, e.ps, e.frame, e.medium);
      InboundFrozen(w, s, e.ps, e.frame, e.medium, ch);
    } else {
      assert t == Handled(s, e.ps, e.response, e.medium);
      HandledFrozen(s, e.ps, e.response, e.medium, ch);
    }
  }

  /** A channel that left the table never receives anything again, whatever happens next. */
  lemma {:induction false} FrozenOnceRemoved(w: World, s: State, events: seq<Event>, ch: nat)
    requires ChannelInv(s) && ch < |s.sent| && !Pending(s, ch) && NoRestart(events)
    ensures Frozen(s, RunFrom(w, s, events), ch)
    decreases |events|
  {
    if events != [] {
      var n := |events| - 1;
      FrozenOnceRemoved(w, s, events[..n], ch);
      RunKeepsChannels(w, s, events[..n]);
      StepFrozen(w, RunFrom(w, s, events[..n]), events[n], ch);
    }
  }

  /** Step `g` of a run from `s0` gives up on request `id`, whose waiter listens on `ch`. */
  ghost predicate GivesUpAt(w: World, s0: State, events: seq<Event>, g: nat, id: RequestId, ch: nat) {
    && g < |events| && events[g] == GiveUp(id) && NoRestart(events[g + 1..])
    && var s := RunFrom(w, s0, events[..g]);
    ch < |s.sent| && ch < |s.owner| && s.owner[ch] == id
  }

  /** Giving up on a request ID silences every channel that was ever registered under it. */
  lemma NothingAfterGiveUp(w: World, before: seq<Event>, id: RequestId, after: seq<Event>, ch: nat)
    requires NoRestart(after)
    requires ch < |Run(w, before).sent| && ch < |Run(w, before).owner| && Run(w, before).owner[ch] == id
    ensures var s := GivenUp(Run(w, before), id);
            var t := RunFrom(w, s, after);
            && !Lru.Has(s.callbacks, id)
            && ch < |t.sent| && ch < |s.sent| && t.sent[ch] == s.sent[ch]
  {
    var s0 := Run(w, before);
    RunKeepsChannels(w, Init, before);
    SilencedFrom(w, s0, id, after, ch);
  }

  lemma SilencedFrom(w: World, s0: State, id: RequestId, after: seq<Event>, ch: nat)
    requires ChannelInv(s0) && NoRestart(after) && ch < |s0.owner| && s0.owner[ch] == id
    ensures var s := GivenUp(s0, id);
            var t := RunFrom(w, s, after);
            && !Lru.Has(s.callbacks, id)
            && ch < |t.sent| && ch < |s.sent| && t.sent[ch] == s.sent[ch]
  {
    GiveUpKeeps(s0, id);
    GiveUpDeregisters(s0, id, ch);
    FrozenOnceRemoved(w, GivenUp(s0, id), after, ch);
  }

  lemma GiveUpDeregisters(s: State, id: RequestId, ch: nat)
    requires ChannelInv(s) && ch < |s.owner| && s.owner[ch] == id
    ensures var t := GivenUp(s, id); !Lru.Has(t.callbacks, id) && ch < |t.sent| && !Pending(t, ch)
  {
    Lru.WithoutKeeps(s.callbacks, id);
  }

  // ---------- channel capacity ----------

  function AckCount(log: seq<Item>): nat {
    if log == [] then 0 else AckCount(log[..|log| - 1]) + (if IsAck(log[|log| - 1]) then 1 else 0)
  }

  lemma {:induction false} AckCountOfAcks(log: seq<Item>)
    requires AllAcks(log)
    ensures AckCount(log) == |log|
  {
    if log != [] { AckCountOfAcks(log[..|log| - 1]); }
  }

  /** Step `e` puts an item on a channel whose buffer is already full. */
  ghost predicate Blocks(w: World, s: State, e: Event) {
    exists ch: nat :: ch < |s.sent| && ch < |s.taken| && ch < |Step(w, s, e).sent|
      && |Step(w, s, e).sent[ch]| > |s.sent[ch]| && |s.sent[ch]| - s.taken[ch] >= CHANNEL_CAPACITY
  }

  /**
   If the phone acknowledges each request at most four times, no send made while
   holding the client lock ever blocks, even when nobody receives any more.
   */
  lemma FourAcksNeverBlock(w: World, events: seq<Event>, e: Event)
    requires !e.Restart?
    requires forall ch :: 0 <= ch < |Run(w, events).sent| ==> AckCount(Run(w, events).sent[ch]) <= 4
    ensures !Blocks(w, Run(w, events), e)
  {
    var s := Run(w, events);
    RunKeepsChannels(w, Init, events);
    forall ch: nat | ch < |s.sent| && ch < |s.taken| && ch < |Step(w, s, e).sent|
                     && |Step(w, s, e).sent[ch]| > |s.sent[ch]|
      ensures |s.sent[ch]| - s.taken[ch] < CHANNEL_CAPACITY
    {
      if !Pending(s, ch) {
        StepFrozen(w, s, e, ch);
      }
      assert Lru.Entry(s.owner[ch], ch) in s.callbacks;
      AckCountOfAcks(s.sent[ch]);
    }
  }

  /** The bound is exact: giving up on a request blocks just when five ACKs lie unread. */
  lemma GiveUpBlocksIff(w: World, events: seq<Event>, id: RequestId, ch: nat)
    requires Lru.Lookup(Run(w, events).callbacks, id) == Some(ch)
    ensures var s := Run(w, events);
            && ch < |s.sent| && ch < |s.taken|
            && (Blocks(w, s, GiveUp(id)) <==> AckCount(s.sent[ch]) >= s.taken[ch] + CHANNEL_CAPACITY)
  {
    var s := Run(w, events);
    RunKeepsChannels(w, Init, events);
    assert Lru.Entry(id, ch) in s.callbacks;
    AckCountOfAcks(s.sent[ch]);
    BlocksOn(w, s, id, ch);
  }

  lemma BlocksOn(w: World, s: State, id: RequestId, ch: nat)
    requires Lru.Lookup(s.callbacks, id) == Some(ch) && ch < |s.sent| && ch < |s.taken|
    ensures Blocks(w, s, GiveUp(id)) <==> |s.sent[ch]| - s.taken[ch] >= CHANNEL_CAPACITY
  {
    var t := Step(w, s, GiveUp(id));
    assert t.sent == Put(s.sent, ch, Nil);
    assert |t.sent[ch]| > |s.sent[ch]|;
    assert forall c: nat :: c < |s.sent| && c != ch ==> t.sent[c] == s.sent[c];
  }

  /** An ACK for `id` and nothing else. */
  function PlainAck(id: RequestId): Response {
    Response(id, true, false, None, None, [])
  }

  /** Pair, register `id`, and receive its ACK `n` times over. */
  function AckEvents(kp: KeyPair, name: string, version: string, id: RequestId, n: nat): seq<Event> {
    if n == 0 then [Pair(Some(kp), name, version)] + [Register(id)]
    else AckEvents(kp, name, version, id, n - 1) + [Deliver(0, PlainAck(id), Sqs)]
  }

  /** Channel 0, registered under `id`, holds `n` ACKs, and nobody took any. */
  ghost predicate AckedTimes(s: State, id: RequestId, n: nat) {
    && |s.heap| == 1 && s.callbacks == [Lru.Entry(id, 0)]
    && |s.sent| == 1 && |s.sent[0]| == n && AllAcks(s.sent[0]) && s.taken == [0]
  }

  lemma AckedOnceMore(s: State, id: RequestId, n: nat)
    requires AckedTimes(s, id, n)
    ensures AckedTimes(Handled(s, 0, PlainAck(id), Sqs), id, n + 1)
  {
    var r := PlainAck(id);
    assert Annotated(s, 0, r) == s;
    assert Lru.Lookup(s.callbacks, id) == Some(0) && Lru.Without(s.callbacks, id) == [];
    assert Lru.Touch(s.callbacks, id) == s.callbacks;
  }

  lemma AckedNoTimes(w: World, kp: KeyPair, name: string, version: string, id: RequestId)
    ensures AckedTimes(Run(w, [Pair(Some(kp), name, version)] + [Register(id)]), id, 0)
  {
    var e := Pair(Some(kp), name, version);
    LeadsOne(w, Init, e);
    var s := RunFrom(w, Init, [e]);
    assert s == Paired(Init, Some(kp), name, version);
    RunSnoc(w, Init, [e], Register(id));
    assert Lru.Add(s.callbacks, id, 0, TABLE_SIZE) == [Lru.Entry(id, 0)];
  }

  lemma RunDeliver(w: World, events: seq<Event>, ps: nat, r: Response, medium: Medium)
    requires ps < |Run(w, events).heap|
    ensures Run(w, events + [Deliver(ps, r, medium)]) == Handled(Run(w, events), ps, r, medium)
  {
    RunSnoc(w, Init, events, Deliver(ps, r, medium));
  }

  lemma {:induction false} AckRun(w: World, kp: KeyPair, name: string, version: string, id: RequestId, n: nat)
    ensures AckedTimes(Run(w, AckEvents(kp, name, version, id, n)), id, n)
  {
    if n == 0 {
      AckedNoTimes(w, kp, name, version, id);
    } else {
      var events := AckEvents(kp, name, version, id, n - 1);
      AckRun(w, kp, name, version, id, n - 1);
      AckedOnceMore(Run(w, events), id, n - 1);
      RunDeliver(w, events, 0, PlainAck(id), Sqs);
    }
  }

  /** The bound is met by a run: after five ACKs that nobody took, and not after four, giving up blocks. */
  lemma FiveAcksBlock(w: World, kp: KeyPair, name: string, version: string, id: RequestId, n: nat)
    ensures Blocks(w, Run(w, AckEvents(kp, name, version, id, n)), GiveUp(id)) <==> n >= CHANNEL_CAPACITY
  {
    AckRun(w, kp, name, version, id, n);
    BlocksOn(w, Run(w, AckEvents(kp, name, version, id, n)), id, 0);
  }
}
