/**
 What becomes of a queued message, over every run at the finest granularity: for which
 phone it is sent, in which order, and that none is lost or sent twice. Each law comes
 with the exact condition under which a single step keeps it.
 */
module EnclaveOrder {
  import opened Basics
  import opened Crypto
  import opened Pairing
  import opened Enclave
  import opened EnclaveQueue

  // ---------- finishers ----------

  /** Finishers belong to different pairings, which have their keys; and indices are in range. */
  ghost predicate FinishInv(s: State) {
    && (s.current.Some? ==> s.current.value < |s.heap|)
    && (forall i :: 0 <= i < |s.wire| ==> s.wire[i].pairing < |s.heap|)
    && (forall i :: 0 <= i < |s.finishing| ==>
          var f := s.finishing[i];
          f.ps < |s.heap| && s.heap[f.ps].enclavePublicKey.Some? && (f.stage == Fresh ==> f.batch == []))
    && (forall i, j :: 0 <= i < j < |s.finishing| ==> s.finishing[i].ps != s.finishing[j].ps)
  }

  lemma SameKeysKeepFinishers(s: State, t: State)
    requires FinishInv(s) && SameKeys(s, t) && t.wire == s.wire && t.finishing == s.finishing
    requires t.current == None || t.current == s.current
    ensures FinishInv(t)
  {
  }

  lemma InstallKeepsFinishers(w: World, s: State, ps: nat, frame: Bytes, medium: Medium)
    requires FinishInv(s) && ps < |s.heap| && Unwrap(w.suite, s.heap[ps], frame).Installed?
    ensures FinishInv(Inbounded(w, s, ps, frame, medium)) && FinishInv(KeyBegun(w, s, ps, frame))
  {
    var p := s.heap[ps].(enclavePublicKey := Some(Unwrap(w.suite, s.heap[ps], frame).key));
    AllHandedOverIs(s.(heap := s.heap[ps := p], queue := [], disk := Some(ToPersisted(p))), ps, s.queue);
  }

  lemma AdvanceKeepsFinishers(s: State, k: nat)
    requires FinishInv(s) && k < |s.finishing|
    ensures FinishInv(KeyAdvanced(s, k))
  {
    var f, t := s.finishing[k], KeyAdvanced(s, k);
    if f.stage == Saved && f.batch == [] {
      RemovalKeepsFinishers(s, k);
    } else {
      var g := t.finishing[k];
      UpdateKeepsFinishers(s, k, g);
      assert t.finishing == s.finishing[k := g] && t.heap == s.heap && t.current == s.current;
      assert t.wire == s.wire || t.wire == s.wire + [Handed(f.ps, f.batch[0])];
    }
  }

  lemma RemovalKeepsFinishers(s: State, k: nat)
    requires FinishInv(s) && k < |s.finishing|
    ensures FinishInv(s.(finishing := s.finishing[..k] + s.finishing[k + 1..]))
  {
    var fs := s.finishing[..k] + s.finishing[k + 1..];
    assert forall i :: 0 <= i < |fs| ==> fs[i] == s.finishing[if i < k then i else i + 1];
  }

  lemma UpdateKeepsFinishers(s: State, k: nat, g: Finisher)
    requires FinishInv(s) && k < |s.finishing| && g.ps == s.finishing[k].ps && g.stage != Fresh
    ensures FinishInv(s.(finishing := s.finishing[k := g]))
  {
    var fs := s.finishing[k := g];
    assert forall i :: 0 <= i < |fs| ==> fs[i].ps == s.finishing[i].ps;
  }

  lemma ReceiptKeepsFinishers(w: World, s: State, ps: nat, frame: Bytes, medium: Medium)
    requires FinishInv(s) && ps < |s.heap|
    ensures FinishInv(Inbounded(w, s, ps, frame, medium))
  {
    match Unwrap(w.suite, s.heap[ps], frame)
    case Installed(_) => InstallKeepsFinishers(w, s, ps, frame, medium);
    case Ciphertext(c) =>
      var m := DecryptMessage(w.suite, s.heap[ps], c);
      if m.Ok? && w.decode(m.value).Some? {
        HandledFrame(s, ps, w.decode(m.value).value, medium);
        SameKeysKeepFinishers(s, Handled(s, ps, w.decode(m.value).value, medium));
      }
    case _ =>
  }

  lemma StepKeepsFinishers(w: World, s: State, e: Event)
    requires FinishInv(s)
    ensures FinishInv(Step(w, s, e))
  {
    if !TouchesQueue(e) {
      OtherStepFrame(w, s, e);
      SameKeysKeepFinishers(s, Step(w, s, e));
    } else if e.Inbound? {
      if e.ps < |s.heap| { ReceiptKeepsFinishers(w, s, e.ps, e.frame, e.medium); }
    } else if e.KeyBegin? {
      if Begins(w, s, e) { InstallKeepsFinishers(w, s, e.ps, e.frame, Sqs); }
    } else if e.KeyNext? {
      if e.k < |s.finishing| { AdvanceKeepsFinishers(s, e.k); }
    } else if SparesPairing(e) {
      SparedPairing(w, s, e);
      SendStaysInRange(w, s, e);
    } else {
      PairKeepsFinishers(w, s, e);
    }
  }

  lemma SendStaysInRange(w: World, s: State, e: Event)
    requires e.Send? || e.SendBegin? || e.SendEnd?
    requires forall i :: 0 <= i < |s.wire| ==> s.wire[i].pairing < |s.heap|
    ensures forall i :: 0 <= i < |Step(w, s, e).wire| ==> Step(w, s, e).wire[i].pairing < |s.heap|
  {
  }

  lemma PairKeepsFinishers(w: World, s: State, e: Event)
    requires FinishInv(s) && (e.Pair? || e.Restart?)
    ensures FinishInv(Step(w, s, e))
  {
    if e.Pair? { assert UnpairedCurrent(s).finishing == s.finishing && UnpairedCurrent(s).heap == s.heap; }
  }

  lemma {:induction false} RunKeepsFinishers(w: World, events: seq<Event>)
    ensures FinishInv(Run(w, events))
    decreases |events|
  {
    if events != [] {
      var n := |events| - 1;
      RunKeepsFinishers(w, events[..n]);
      StepKeepsFinishers(w, Run(w, events[..n]), events[n]);
    }
  }

  // ---------- the right phone ----------

  /** Everything queued is meant for the current pairing, if there is one. */
  ghost predicate Own(s: State) {
    s.current.Some? ==> forall i :: 0 <= i < |s.queue| ==> s.queue[i].pairing == s.current.value
  }

  /** A message for another pairing enters the queue of the current one. */
  predicate Crosses(s: State, e: Event) {
    s.current.Some? && Enqueues(s, e).Some? && Enqueues(s, e).value.pairing != s.current.value
  }

  lemma InboundOwn(w: World, s: State, ps: nat, frame: Bytes, medium: Medium)
    requires Own(s) && ps < |s.heap|
    ensures Own(Inbounded(w, s, ps, frame, medium))
  {
    match Unwrap(w.suite, s.heap[ps], frame)
    case Installed(key) =>
      var p := s.heap[ps].(enclavePublicKey := Some(key));
      AllHandedOverIs(s.(heap := s.heap[ps := p], queue := [], disk := Some(ToPersisted(p))), ps, s.queue);
    case Ciphertext(c) =>
      var m := DecryptMessage(w.suite, s.heap[ps], c);
      if m.Ok? && w.decode(m.value).Some? { HandledFrame(s, ps, w.decode(m.value).value, medium); }
    case _ =>
  }

  /** Exactly these steps leave a message for another phone in the queue. */
  lemma StepOwnIff(w: World, s: State, e: Event)
    requires Own(s)
    ensures Own(Step(w, s, e)) <==> !Crosses(s, e)
  {
    if !TouchesQueue(e) {
      OtherStepFrame(w, s, e);
    } else if e.Inbound? {
      if e.ps < |s.heap| { InboundOwn(w, s, e.ps, e.frame, e.medium); }
    } else if e.SendEnd? || e.Send? {
      EnqueueStep(w, s, e);
      var t := Step(w, s, e);
      if Enqueues(s, e).Some? { assert t.queue[|s.queue|] == Enqueues(s, e).value; }
    }
  }

  /** The queue is taken for a pairing that is not current. */
  predicate TakesLate(w: World, s: State, e: Event) {
    InstallsLate(w, s, e) || (Finishes(s, e, Fresh) && s.current != Some(s.finishing[e.k].ps))
  }

  predicate AllFor(offers: seq<Offer>, p: nat) {
    forall i :: 0 <= i < |offers| ==> offers[i].pairing == p
  }

  predicate RightPhone(wire: seq<Handed>) {
    forall i :: 0 <= i < |wire| ==> wire[i].offer.pairing == wire[i].pairing
  }

  ghost predicate AllOwn(s: State) {
    && Own(s) && RightPhone(s.wire)
    && forall i :: 0 <= i < |s.finishing| ==> AllFor(s.finishing[i].batch, s.finishing[i].ps)
  }

  lemma AdvanceOwn(s: State, k: nat)
    requires AllOwn(s) && k < |s.finishing|
    requires s.finishing[k].ps < |s.heap| && s.finishing[k].stage == Fresh ==> s.current == Some(s.finishing[k].ps)
    ensures AllOwn(KeyAdvanced(s, k))
  {
    var f, t := s.finishing[k], KeyAdvanced(s, k);
    if f.ps < |s.heap| {
      if f.stage == Saved && f.batch == [] {
        assert forall i :: 0 <= i < |t.finishing| ==> t.finishing[i] == s.finishing[if i < k then i else i + 1];
      } else {
        assert f.batch != [] ==> f.batch[0].pairing == f.ps;
        assert forall i :: 0 <= i < |t.finishing| && i != k ==> t.finishing[i] == s.finishing[i];
      }
    }
  }

  lemma InboundAllOwn(w: World, s: State, ps: nat, frame: Bytes, medium: Medium)
    requires AllOwn(s) && ps < |s.heap|
    requires Unwrap(w.suite, s.heap[ps], frame).Installed? ==> s.current == Some(ps)
    ensures AllOwn(Inbounded(w, s, ps, frame, medium))
  {
    InboundOwn(w, s, ps, frame, medium);
    InboundFinishing(w, s, ps, frame, medium);
    match Unwrap(w.suite, s.heap[ps], frame)
    case Installed(key) =>
      var p := s.heap[ps].(enclavePublicKey := Some(key));
      AllHandedOverIs(s.(heap := s.heap[ps := p], queue := [], disk := Some(ToPersisted(p))), ps, s.queue);
    case Ciphertext(c) =>
      var m := DecryptMessage(w.suite, s.heap[ps], c);
      if m.Ok? && w.decode(m.value).Some? { HandledFrame(s, ps, w.decode(m.value).value, medium); }
    case _ =>
  }

  lemma StepAllOwn(w: World, s: State, e: Event)
    requires AllOwn(s) && !Crosses(s, e) && !TakesLate(w, s, e)
    ensures AllOwn(Step(w, s, e))
  {
    StepOwnIff(w, s, e);
    if !TouchesQueue(e) {
      OtherStepFrame(w, s, e);
    } else if e.Inbound? {
      if e.ps < |s.heap| { InboundAllOwn(w, s, e.ps, e.frame, e.medium); }
    } else if e.KeyNext? {
      if e.k < |s.finishing| { AdvanceOwn(s, e.k); }
    }
  }

  ghost predicate NeverCrosses(w: World, events: seq<Event>)
    decreases |events|
  {
    events == [] ||
    var n, s := |events| - 1, Run(w, events[..|events| - 1]);
    NeverCrosses(w, events[..n]) && !Crosses(s, events[n]) && !TakesLate(w, s, events[n])
  }

  lemma {:induction false} RunAllOwn(w: World, events: seq<Event>)
    requires NeverCrosses(w, events)
    ensures AllOwn(Run(w, events))
    decreases |events|
  {
    if events != [] {
      var n := |events| - 1;
      RunAllOwn(w, events[..n]);
      StepAllOwn(w, Run(w, events[..n]), events[n]);
    }
  }

  /**
   Over every run in which no message enters the queue of another pairing and no late key
   takes the queue, whatever is handed over under a pairing was meant for it.
   */
  lemma MessagesReachTheirPhone(w: World, events: seq<Event>)
    requires NeverCrosses(w, events)
    ensures forall i :: 0 <= i < |Run(w, events).wire| ==>
              Run(w, events).wire[i].offer.pairing == Run(w, events).wire[i].pairing
  {
    RunAllOwn(w, events);
  }

  /** A message meant for another pairing is handed over: by a usable key that takes the queue, or by its finisher. */
  predicate HandsForeign(w: World, s: State, e: Event) {
    || (Installs(w, s, e) && !AllFor(s.queue, e.ps)
        && Ready(s.heap[e.ps].(enclavePublicKey := Some(Unwrap(w.suite, s.heap[e.ps], e.frame).key))))
    || (Finishes(s, e, Saved) && Ready(s.heap[s.finishing[e.k].ps]) && s.finishing[e.k].batch != []
        && s.finishing[e.k].batch[0].pairing != s.finishing[e.k].ps)
  }

  lemma RightPhoneConcat(a: seq<Handed>, b: seq<Handed>)
    ensures RightPhone(a + b) <==> RightPhone(a) && RightPhone(b)
  {
    if RightPhone(a + b) {
      assert forall i :: 0 <= i < |a| ==> (a + b)[i] == a[i];
      assert forall i :: 0 <= i < |b| ==> (a + b)[|a| + i] == b[i];
    }
  }

  lemma BatchRightIff(ps: nat, offers: seq<Offer>)
    ensures RightPhone(Batch(ps, offers)) <==> AllFor(offers, ps)
  {
    assert forall i :: 0 <= i < |offers| ==> Batch(ps, offers)[i].offer == offers[i];
  }

  lemma InboundRightIff(w: World, s: State, e: Event)
    requires RightPhone(s.wire) && e.Inbound? && e.ps < |s.heap|
    ensures RightPhone(Inbounded(w, s, e.ps, e.frame, e.medium).wire) <==> !HandsForeign(w, s, e)
  {
    match Unwrap(w.suite, s.heap[e.ps], e.frame)
    case Installed(key) =>
      var p := s.heap[e.ps].(enclavePublicKey := Some(key));
      AllHandedOverIs(s.(heap := s.heap[e.ps := p], queue := [], disk := Some(ToPersisted(p))), e.ps, s.queue);
      RightPhoneConcat(s.wire, Batch(e.ps, s.queue));
      BatchRightIff(e.ps, s.queue);
    case Ciphertext(c) =>
      var m := DecryptMessage(w.suite, s.heap[e.ps], c);
      if m.Ok? && w.decode(m.value).Some? { HandledFrame(s, e.ps, w.decode(m.value).value, e.medium); }
    case _ =>
  }

  /** Exactly these steps send a message to another phone than the one it was meant for. */
  lemma StepRightIff(w: World, s: State, e: Event)
    requires RightPhone(s.wire)
    ensures RightPhone(Step(w, s, e).wire) <==> !HandsForeign(w, s, e)
  {
    if !TouchesQueue(e) {
      OtherStepFrame(w, s, e);
    } else if e.Inbound? {
      if e.ps < |s.heap| { InboundRightIff(w, s, e); }
    } else if Finishes(s, e, Saved) && s.finishing[e.k].batch != [] {
      var f := s.finishing[e.k];
      var one := [Handed(f.ps, f.batch[0])];
      RightPhoneConcat(s.wire, one);
      assert RightPhone(one) <==> one[0].offer.pairing == f.ps;
    }
  }

  // ---------- the right order ----------

  /** What the finisher of pairing `p` has taken and not yet sent. */
  ghost function BatchFor(fs: seq<Finisher>, p: nat): seq<Offer> {
    if exists k: nat :: k < |fs| && fs[k].ps == p then
      var k: nat :| k < |fs| && fs[k].ps == p;
      fs[k].batch
    else []
  }

  ghost predicate OnePerPairing(fs: seq<Finisher>) {
    forall i, j :: 0 <= i < j < |fs| ==> fs[i].ps != fs[j].ps
  }

  lemma BatchForIs(fs: seq<Finisher>, k: nat)
    requires OnePerPairing(fs) && k < |fs|
    ensures BatchFor(fs, fs[k].ps) == fs[k].batch
  {
  }

  lemma BatchForUpdate(fs: seq<Finisher>, k: nat, f: Finisher, p: nat)
    requires OnePerPairing(fs) && k < |fs| && f.ps == fs[k].ps
    ensures BatchFor(fs[k := f], p) == if p == f.ps then f.batch else BatchFor(fs, p)
  {
    var t := fs[k := f];
    assert OnePerPairing(t);
    if p == f.ps {
      BatchForIs(t, k);
    } else if i: nat :| i < |fs| && fs[i].ps == p {
      assert t[i] == fs[i];
      BatchForIs(fs, i);
      BatchForIs(t, i);
    }
  }

  lemma BatchForRemoval(fs: seq<Finisher>, k: nat, p: nat)
    requires OnePerPairing(fs) && k < |fs| && fs[k].batch == []
    ensures BatchFor(fs[..k] + fs[k + 1..], p) == BatchFor(fs, p)
  {
    var t := fs[..k] + fs[k + 1..];
    assert forall i :: 0 <= i < |t| ==> t[i] == fs[if i < k then i else i + 1];
    assert OnePerPairing(t);
    if i: nat :| i < |fs| && fs[i].ps == p {
      BatchForIs(fs, i);
      if i != k {
        var j := if i < k then i else i - 1;
        assert t[j] == fs[i];
        BatchForIs(t, j);
      } else {
        assert forall j :: 0 <= j < |t| ==> t[j].ps != p;
      }
    }
  }

  lemma BatchForSnoc(fs: seq<Finisher>, f: Finisher, p: nat)
    requires OnePerPairing(fs + [f]) && f.batch == []
    ensures BatchFor(fs + [f], p) == BatchFor(fs, p)
  {
    var t := fs + [f];
    assert forall i :: 0 <= i < |fs| ==> t[i] == fs[i];
    assert OnePerPairing(fs);
    if i: nat :| i < |fs| && fs[i].ps == p {
      BatchForIs(fs, i);
      BatchForIs(t, i);
    } else if p == f.ps {
      assert t[|fs|] == f;
      BatchForIs(t, |fs|);
    }
  }

  /** What was accepted for the current pairing and has not been sent. */
  ghost function Unsent(s: State): seq<Offer> {
    if s.current == None then [] else BatchFor(s.finishing, s.current.value) + s.queue
  }

  /** There is a pairing, and its key, if it came, fits. */
  predicate Usable(s: State) {
    s.current.Some? && s.current.value < |s.heap|
    && (s.heap[s.current.value].enclavePublicKey == None || Ready(s.heap[s.current.value]))
  }

  /** The message that the step sends at once, under the current pairing. */
  function Direct(s: State, e: Event): Option<Offer> {
    if (e.Send? || e.SendBegin?) && s.current == Some(e.ps) && e.ps < |s.heap| && Ready(s.heap[e.ps])
    then Some(Offer(e.ps, e.message)) else None
  }

  function ToSeq(o: Option<Offer>): seq<Offer> {
    if o.Some? then [o.value] else []
  }

  /** The messages accepted since the current pairing was made, queued or sent at once, in order. */
  function Accepted(w: World, events: seq<Event>): seq<Offer>
    decreases |events|
  {
    if events == [] then []
    else
      var n := |events| - 1;
      NextAccepted(Run(w, events[..n]), events[n], Accepted(w, events[..n]))
  }

  function NextAccepted(s: State, e: Event, before: seq<Offer>): seq<Offer> {
    if e.Restart? || (e.Pair? && e.keys.Some?) then [] else before + ToSeq(Enqueues(s, e)) + ToSeq(Direct(s, e))
  }

  /** What was sent, followed by what is still to be sent, is what was accepted. */
  ghost predicate OrderLaw(s: State, accepted: seq<Offer>) {
    Usable(s) ==> WireOf(s.wire, s.current.value) + Unsent(s) == accepted
  }

  /** A message sent at once overtakes what waits, or what waits is taken away for another pairing. */
  ghost predicate BreaksOrder(w: World, s: State, e: Event) {
    && Usable(s)
    && ((Direct(s, e).Some? && Unsent(s) + [Direct(s, e).value] != [Direct(s, e).value] + Unsent(s))
        || (TakesLate(w, s, e) && s.queue != []))
  }

  lemma OrderFrame(s: State, t: State, accepted: seq<Offer>)
    requires OrderLaw(s, accepted) && FinishInv(s)
    requires SameKeys(s, t) && t.wire == s.wire && t.queue == s.queue && t.finishing == s.finishing
    requires t.current == None || t.current == s.current
    ensures OrderLaw(t, accepted)
  {
  }

  lemma OrderPair(w: World, s: State, e: Event, accepted: seq<Offer>)
    requires OrderLaw(s, accepted) && FinishInv(s) && (e.Pair? || e.Restart?)
    ensures OrderLaw(Step(w, s, e), NextAccepted(s, e, accepted))
  {
    if e.Pair? && e.keys.Some? {
      WireOfForeign(s.wire, |s.heap|);
      assert forall k :: 0 <= k < |s.finishing| ==> s.finishing[k].ps != |s.heap|;
    }
  }

  lemma AppendEither(a: seq<Offer>, u: seq<Offer>, o: Offer)
    ensures a + [o] + u == a + u + [o] <==> u + [o] == [o] + u
  {
    assert a + [o] + u == a + ([o] + u) && a + u + [o] == a + (u + [o]);
    assert (a + ([o] + u))[|a|..] == [o] + u && (a + (u + [o]))[|a|..] == u + [o];
  }

  lemma OrderSend(w: World, s: State, e: Event, accepted: seq<Offer>)
    requires OrderLaw(s, accepted) && FinishInv(s) && (e.Send? || e.SendBegin? || e.SendEnd?)
    ensures OrderLaw(Step(w, s, e), NextAccepted(s, e, accepted)) <==> !BreaksOrder(w, s, e)
  {
    if !Usable(s) {
      SparedPairing(w, s, e);
    } else if Direct(s, e).Some? {
      OrderDirect(w, s, e, accepted);
    } else {
      OrderQueued(w, s, e, accepted);
    }
  }

  lemma OrderDirect(w: World, s: State, e: Event, accepted: seq<Offer>)
    requires OrderLaw(s, accepted) && Usable(s) && Direct(s, e).Some?
    ensures OrderLaw(Step(w, s, e), NextAccepted(s, e, accepted)) <==> !BreaksOrder(w, s, e)
  {
    var t, cur, o := Step(w, s, e), s.current.value, Direct(s, e).value;
    assert t == s.(wire := s.wire + [Handed(cur, o)]);
    WireOfSnoc(s.wire, Handed(cur, o), cur);
    AppendEither(WireOf(s.wire, cur), Unsent(s), o);
    assert NextAccepted(s, e, accepted) == accepted + [o];
  }

  lemma OrderQueued(w: World, s: State, e: Event, accepted: seq<Offer>)
    requires OrderLaw(s, accepted) && Usable(s) && Direct(s, e) == None && (e.Send? || e.SendBegin? || e.SendEnd?)
    ensures OrderLaw(Step(w, s, e), NextAccepted(s, e, accepted)) && !BreaksOrder(w, s, e)
  {
    var t, cur, o := Step(w, s, e), s.current.value, ToSeq(Enqueues(s, e));
    SendElsewhere(w, s, e);
    var a, b := WireOf(s.wire, cur), BatchFor(s.finishing, cur);
    assert a + (b + (s.queue + o)) == a + (b + s.queue) + o;
    assert NextAccepted(s, e, accepted) == accepted + o;
  }

  /** A send that is not one under the current usable pairing at most appends to the queue, as far as the order goes. */
  lemma SendElsewhere(w: World, s: State, e: Event)
    requires Usable(s) && (e.Send? || e.SendBegin? || e.SendEnd?) && Direct(s, e) == None
    ensures var t := Step(w, s, e);
            && t.heap == s.heap && t.current == s.current && t.finishing == s.finishing
            && t.queue == s.queue + ToSeq(Enqueues(s, e))
            && WireOf(t.wire, s.current.value) == WireOf(s.wire, s.current.value)
  {
    if !e.SendEnd? && e.ps < |s.heap| && Ready(s.heap[e.ps]) {
      WireOfSnoc(s.wire, Handed(e.ps, Offer(e.ps, e.message)), s.current.value);
    }
  }

  lemma OrderBegin(w: World, s: State, ps: nat, frame: Bytes, accepted: seq<Offer>)
    requires OrderLaw(s, accepted) && FinishInv(s) && ps < |s.heap|
    ensures OrderLaw(KeyBegun(w, s, ps, frame), accepted)
  {
    if Unwrap(w.suite, s.heap[ps], frame).Installed? && s.current.Some? {
      InstallKeepsFinishers(w, s, ps, frame, Sqs);
      BatchForSnoc(s.finishing, Finisher(ps, Fresh, []), s.current.value);
    }
  }

  lemma OrderInstallOwn(w: World, s: State, ps: nat, frame: Bytes, medium: Medium, accepted: seq<Offer>)
    requires OrderLaw(s, accepted) && FinishInv(s) && ps < |s.heap| && Unwrap(w.suite, s.heap[ps], frame).Installed?
    requires s.current == Some(ps)
    ensures OrderLaw(Inbounded(w, s, ps, frame, medium), accepted)
  {
    InstalledIs(w, s, ps, frame, medium);
    NoBatchYet(s, ps);
    var t := Inbounded(w, s, ps, frame, medium);
    if Ready(t.heap[ps]) {
      WireOfFlush(s.wire, s.queue, ps);
      Emptied(WireOf(s.wire, ps), s.queue);
    }
  }

  /** A pairing without a key has no finisher. */
  lemma NoBatchYet(s: State, ps: nat)
    requires FinishInv(s) && ps < |s.heap| && s.heap[ps].enclavePublicKey == None
    ensures BatchFor(s.finishing, ps) == []
  {
    assert forall k :: 0 <= k < |s.finishing| ==> s.finishing[k].ps != ps;
  }

  lemma Emptied(a: seq<Offer>, q: seq<Offer>)
    ensures a + q + ([] + []) == a + ([] + q)
  {
  }

  lemma OrderInstallLate(w: World, s: State, ps: nat, frame: Bytes, medium: Medium, accepted: seq<Offer>)
    requires OrderLaw(s, accepted) && FinishInv(s) && ps < |s.heap| && Unwrap(w.suite, s.heap[ps], frame).Installed?
    requires s.current != Some(ps)
    ensures OrderLaw(Inbounded(w, s, ps, frame, medium), accepted) <==> !(Usable(s) && s.queue != [])
  {
    InstalledIs(w, s, ps, frame, medium);
    if Usable(s) {
      var t, cur := Inbounded(w, s, ps, frame, medium), s.current.value;
      var flushed := if Ready(t.heap[ps]) then Batch(ps, s.queue) else [];
      WireOfConcat(s.wire, flushed, cur);
      WireOfForeign(flushed, cur);
      assert WireOf(t.wire, cur) == WireOf(s.wire, cur);
      DropTail(WireOf(s.wire, cur), BatchFor(s.finishing, cur), s.queue);
    }
  }

  lemma DropTail(a: seq<Offer>, b: seq<Offer>, c: seq<Offer>)
    ensures a + (b + []) == a + (b + c) <==> c == []
  {
    assert |a + (b + [])| + |c| == |a + (b + c)|;
  }

  lemma OrderTake(s: State, k: nat, accepted: seq<Offer>)
    requires OrderLaw(s, accepted) && FinishInv(s) && k < |s.finishing| && s.finishing[k].stage == Fresh
    ensures OrderLaw(KeyAdvanced(s, k), accepted) <==>
            !(Usable(s) && s.current != Some(s.finishing[k].ps) && s.queue != [])
  {
    if Usable(s) {
      var f, cur := s.finishing[k], s.current.value;
      BatchForIs(s.finishing, k);
      BatchForUpdate(s.finishing, k, f.(stage := Taken, batch := s.queue), cur);
      if cur == f.ps {
        assert [] + s.queue == s.queue + [];
      } else {
        DropTail(WireOf(s.wire, cur), BatchFor(s.finishing, cur), s.queue);
      }
    }
  }

  lemma OrderFlush(s: State, k: nat, accepted: seq<Offer>)
    requires OrderLaw(s, accepted) && FinishInv(s) && k < |s.finishing|
    requires s.finishing[k].stage == Saved && s.finishing[k].batch != []
    ensures OrderLaw(KeyAdvanced(s, k), accepted)
  {
    if Usable(s) {
      var f, t, cur := s.finishing[k], KeyAdvanced(s, k), s.current.value;
      var o, rest := f.batch[0], f.batch[1..];
      BatchForUpdate(s.finishing, k, f.(batch := rest), cur);
      if Ready(s.heap[f.ps]) { WireOfSnoc(s.wire, Handed(f.ps, o), cur); }
      if cur == f.ps {
        BatchForIs(s.finishing, k);
        MoveAcross(WireOf(s.wire, cur), f.batch, s.queue);
        assert WireOf(t.wire, cur) == WireOf(s.wire, cur) + [o] && Unsent(t) == rest + s.queue;
      } else {
        assert WireOf(t.wire, cur) == WireOf(s.wire, cur) && Unsent(t) == Unsent(s);
      }
    }
  }

  lemma MoveAcross(a: seq<Offer>, b: seq<Offer>, c: seq<Offer>)
    requires b != []
    ensures a + [b[0]] + (b[1..] + c) == a + (b + c)
  {
    assert b == [b[0]] + b[1..];
  }

  lemma OrderNext(w: World, s: State, e: Event, accepted: seq<Offer>)
    requires OrderLaw(s, accepted) && FinishInv(s) && e.KeyNext? && e.k < |s.finishing|
    ensures OrderLaw(KeyAdvanced(s, e.k), accepted) <==> !BreaksOrder(w, s, e)
  {
    var f := s.finishing[e.k];
    if f.stage == Fresh {
      OrderTake(s, e.k, accepted);
    } else if f.stage == Saved && f.batch != [] {
      OrderFlush(s, e.k, accepted);
    } else if s.current.Some? {
      if f.stage == Saved {
        BatchForRemoval(s.finishing, e.k, s.current.value);
      } else {
        BatchForIs(s.finishing, e.k);
        BatchForUpdate(s.finishing, e.k, f.(stage := Saved), s.current.value);
      }
    }
  }

  lemma OrderInbound(w: World, s: State, e: Event, accepted: seq<Offer>)
    requires OrderLaw(s, accepted) && FinishInv(s) && e.Inbound? && e.ps < |s.heap|
    ensures OrderLaw(Inbounded(w, s, e.ps, e.frame, e.medium), accepted) <==> !BreaksOrder(w, s, e)
  {
    match Unwrap(w.suite, s.heap[e.ps], e.frame)
    case Installed(_) =>
      if s.current == Some(e.ps) {
        OrderInstallOwn(w, s, e.ps, e.frame, e.medium, accepted);
      } else {
        OrderInstallLate(w, s, e.ps, e.frame, e.medium, accepted);
      }
    case Ciphertext(c) =>
      var m := DecryptMessage(w.suite, s.heap[e.ps], c);
      if m.Ok? && w.decode(m.value).Some? {
        HandledFrame(s, e.ps, w.decode(m.value).value, e.medium);
        OrderFrame(s, Handled(s, e.ps, w.decode(m.value).value, e.medium), accepted);
      }
    case _ =>
  }

  lemma AcceptsNothing(s: State, e: Event, accepted: seq<Offer>)
    requires !e.Restart? && !e.Pair? && !e.Send? && !e.SendBegin? && !e.SendEnd?
    ensures NextAccepted(s, e, accepted) == accepted
  {
  }

  /** Exactly these steps break the order. */
  lemma StepOrderIff(w: World, s: State, e: Event, accepted: seq<Offer>)
    requires OrderLaw(s, accepted) && FinishInv(s)
    ensures OrderLaw(Step(w, s, e), NextAccepted(s, e, accepted)) <==> !BreaksOrder(w, s, e)
  {
    if e.Pair? || e.Restart? {
      OrderPair(w, s, e, accepted);
    } else if e.Send? || e.SendBegin? || e.SendEnd? {
      OrderSend(w, s, e, accepted);
    } else {
      AcceptsNothing(s, e, accepted);
      if e.Inbound? {
        if e.ps < |s.heap| { OrderInbound(w, s, e, accepted); }
      } else if e.KeyBegin? {
        if e.ps < |s.heap| { OrderBegin(w, s, e.ps, e.frame, accepted); }
      } else if e.KeyNext? {
        if e.k < |s.finishing| { OrderNext(w, s, e, accepted); }
      } else {
        OtherStepFrame(w, s, e);
        OrderFrame(s, Step(w, s, e), accepted);
      }
    }
  }

  ghost predicate NeverBreaksOrder(w: World, events: seq<Event>)
    decreases |events|
  {
    events == [] ||
    var n := |events| - 1;
    NeverBreaksOrder(w, events[..n]) && !BreaksOrder(w, Run(w, events[..n]), events[n])
  }

  /**
   Over every run without such a step, at the finest granularity: what the transport got
   under the current pairing, followed by what its finisher and the queue still hold, is
   exactly what was accepted since it was made, in that order.
   */
  lemma {:induction false} OrderIsKept(w: World, events: seq<Event>)
    requires NeverBreaksOrder(w, events)
    ensures var s := Run(w, events);
            Usable(s) ==> WireOf(s.wire, s.current.value) + Unsent(s) == Accepted(w, events)
    decreases |events|
  {
    if events != [] {
      var n := |events| - 1;
      OrderIsKept(w, events[..n]);
      RunKeepsFinishers(w, events[..n]);
      StepOrderIff(w, Run(w, events[..n]), events[n], Accepted(w, events[..n]));
    }
  }

  // ---------- nothing lost, nothing doubled ----------

  /** How often `o` occurs. */
  function Times(offers: seq<Offer>, o: Offer): nat {
    multiset(offers)[o]
  }

  lemma TimesConcat(a: seq<Offer>, b: seq<Offer>, o: Offer)
    ensures Times(a + b, o) == Times(a, o) + Times(b, o)
  {
  }

  lemma TimesCons(offers: seq<Offer>, o: Offer)
    requires offers != []
    ensures Times(offers, o) == Times([offers[0]], o) + Times(offers[1..], o)
  {
    TimesConcat([offers[0]], offers[1..], o);
    assert offers == [offers[0]] + offers[1..];
  }

  /** How often finishers hold `o`. */
  function InFlight(fs: seq<Finisher>, o: Offer): nat {
    if fs == [] then 0 else InFlight(fs[..|fs| - 1], o) + Times(fs[|fs| - 1].batch, o)
  }

  lemma {:induction false} InFlightConcat(a: seq<Finisher>, b: seq<Finisher>, o: Offer)
    ensures InFlight(a + b, o) == InFlight(a, o) + InFlight(b, o)
    decreases |b|
  {
    if b == [] {
      assert a + b == a;
    } else {
      var n, ab := |b| - 1, a + b;
      assert ab[..|ab| - 1] == a + b[..n] && ab[|ab| - 1] == b[n];
      InFlightConcat(a, b[..n], o);
    }
  }

  lemma InFlightOne(f: Finisher, o: Offer)
    ensures InFlight([f], o) == Times(f.batch, o)
  {
    assert [f][..0] == [];
  }

  lemma InFlightAt(a: seq<Finisher>, f: Finisher, b: seq<Finisher>, o: Offer)
    ensures InFlight(a + [f] + b, o) == InFlight(a, o) + Times(f.batch, o) + InFlight(b, o)
  {
    InFlightConcat(a + [f], b, o);
    InFlightConcat(a, [f], o);
    InFlightOne(f, o);
  }

  /** How often `o` is queued, or was taken from the queue and not yet sent. */
  function Held(s: State, o: Offer): nat {
    Times(s.queue, o) + InFlight(s.finishing, o)
  }

  function Offers(wire: seq<Handed>): (r: seq<Offer>)
    ensures |r| == |wire| && forall i :: 0 <= i < |r| ==> r[i] == wire[i].offer
  {
    seq(|wire|, i requires 0 <= i < |wire| => wire[i].offer)
  }

  /** What a key frame or a finisher adds to the transport. */
  function Flushes(w: World, s: State, e: Event): seq<Offer> {
    var t := Step(w, s, e);
    if (e.Inbound? || e.KeyNext?) && |s.wire| <= |t.wire| then Offers(t.wire[|s.wire|..]) else []
  }

  /** How often a step discards `o`: a new pairing, a restart, or a key that cannot box anything. */
  function Drops(w: World, s: State, e: Event, o: Offer): nat {
    match e
    case Pair(Some(_), _, _) => Times(s.queue, o)
    case Restart => Held(s, o)
    case Inbound(ps, frame, _) =>
      if Installs(w, s, e) && !Ready(s.heap[ps].(enclavePublicKey := Some(Unwrap(w.suite, s.heap[ps], frame).key)))
      then Times(s.queue, o) else 0
    case KeyNext(k) =>
      if Finishes(s, e, Saved) && s.finishing[k].batch != [] && !Ready(s.heap[s.finishing[k].ps])
      then Times([s.finishing[k].batch[0]], o) else 0
    case _ => 0
  }

  ghost predicate Balanced(w: World, s: State, e: Event, o: Offer) {
    Held(Step(w, s, e), o) + Times(Flushes(w, s, e), o) + Drops(w, s, e, o) == Held(s, o) + Times(ToSeq(Enqueues(s, e)), o)
  }

  lemma NothingFlushed(w: World, s: State, e: Event)
    requires Step(w, s, e).wire == s.wire
    ensures Flushes(w, s, e) == []
  {
    assert s.wire[|s.wire|..] == [];
  }

  lemma Flushed(w: World, s: State, e: Event, more: seq<Handed>)
    requires (e.Inbound? || e.KeyNext?) && Step(w, s, e).wire == s.wire + more
    ensures Flushes(w, s, e) == Offers(more)
  {
    assert (s.wire + more)[|s.wire|..] == more;
  }

  lemma InstallBalanced(w: World, s: State, e: Event, o: Offer)
    requires Installs(w, s, e)
    ensures Balanced(w, s, e, o)
  {
    var p := s.heap[e.ps].(enclavePublicKey := Some(Unwrap(w.suite, s.heap[e.ps], e.frame).key));
    InstalledIs(w, s, e.ps, e.frame, e.medium);
    Flushed(w, s, e, if Ready(p) then Batch(e.ps, s.queue) else []);
    assert Ready(p) ==> Offers(Batch(e.ps, s.queue)) == s.queue;
  }

  /** One finisher changes, and the others hold what they held. */
  lemma InFlightChange(fs: seq<Finisher>, k: nat, g: Finisher, o: Offer)
    requires k < |fs|
    ensures InFlight(fs[k := g], o) + Times(fs[k].batch, o) == InFlight(fs, o) + Times(g.batch, o)
  {
    var a, b := fs[..k], fs[k + 1..];
    assert fs == a + [fs[k]] + b && fs[k := g] == a + [g] + b;
    InFlightAt(a, fs[k], b, o);
    InFlightAt(a, g, b, o);
  }

  lemma InFlightRemoval(fs: seq<Finisher>, k: nat, o: Offer)
    requires k < |fs|
    ensures InFlight(fs[..k] + fs[k + 1..], o) + Times(fs[k].batch, o) == InFlight(fs, o)
  {
    var a, b := fs[..k], fs[k + 1..];
    assert fs == a + [fs[k]] + b;
    InFlightAt(a, fs[k], b, o);
    InFlightConcat(a, b, o);
  }

  lemma FlushBalanced(w: World, s: State, e: Event, o: Offer)
    requires Finishes(s, e, Saved) && s.finishing[e.k].batch != []
    ensures Balanced(w, s, e, o)
  {
    var f := s.finishing[e.k];
    var g := f.(batch := f.batch[1..]);
    InFlightChange(s.finishing, e.k, g, o);
    TimesCons(f.batch, o);
    var t := KeyAdvanced(s, e.k);
    assert Step(w, s, e) == t && t.finishing == s.finishing[e.k := g] && t.queue == s.queue;
    if Ready(s.heap[f.ps]) {
      Flushed(w, s, e, [Handed(f.ps, f.batch[0])]);
      assert Offers([Handed(f.ps, f.batch[0])]) == [f.batch[0]];
    } else {
      NothingFlushed(w, s, e);
    }
  }

  lemma TakeBalanced(w: World, s: State, e: Event, o: Offer)
    requires Finishes(s, e, Fresh) && s.finishing[e.k].batch == []
    ensures Balanced(w, s, e, o)
  {
    var g := s.finishing[e.k].(stage := Taken, batch := s.queue);
    InFlightChange(s.finishing, e.k, g, o);
    var t := KeyAdvanced(s, e.k);
    assert Step(w, s, e) == t && t.finishing == s.finishing[e.k := g] && t.queue == [] && t.wire == s.wire;
    NothingFlushed(w, s, e);
  }

  lemma AdvanceBalanced(w: World, s: State, e: Event, o: Offer)
    requires FinishInv(s) && e.KeyNext? && e.k < |s.finishing|
    ensures Balanced(w, s, e, o)
  {
    var f, t := s.finishing[e.k], KeyAdvanced(s, e.k);
    assert Step(w, s, e) == t;
    if f.stage == Fresh {
      TakeBalanced(w, s, e, o);
    } else if f.stage == Saved && f.batch != [] {
      FlushBalanced(w, s, e, o);
    } else if f.stage == Saved {
      NothingFlushed(w, s, e);
      InFlightRemoval(s.finishing, e.k, o);
    } else {
      SaveBalanced(w, s, e, o);
    }
  }

  lemma SaveBalanced(w: World, s: State, e: Event, o: Offer)
    requires Finishes(s, e, Taken)
    ensures Balanced(w, s, e, o)
  {
    var g := s.finishing[e.k].(stage := Saved);
    InFlightChange(s.finishing, e.k, g, o);
    var t := KeyAdvanced(s, e.k);
    assert Step(w, s, e) == t && t.finishing == s.finishing[e.k := g] && t.queue == s.queue && t.wire == s.wire;
    NothingFlushed(w, s, e);
  }

  lemma QuietFrame(w: World, s: State, e: Event)
    requires (e.Inbound? && !Installs(w, s, e)) || !TouchesQueue(e)
    ensures var t := Step(w, s, e); t.wire == s.wire && t.queue == s.queue && t.finishing == s.finishing
  {
    if !TouchesQueue(e) {
      OtherStepFrame(w, s, e);
    } else if e.ps < |s.heap| {
      match Unwrap(w.suite, s.heap[e.ps], e.frame)
      case Ciphertext(c) =>
        var m := DecryptMessage(w.suite, s.heap[e.ps], c);
        if m.Ok? && w.decode(m.value).Some? { HandledFrame(s, e.ps, w.decode(m.value).value, e.medium); }
      case _ =>
    }
  }

  lemma BeginBalanced(w: World, s: State, e: Event, o: Offer)
    requires e.KeyBegin?
    ensures Balanced(w, s, e, o)
  {
    if Begins(w, s, e) {
      var f := Finisher(e.ps, Fresh, []);
      InFlightConcat(s.finishing, [f], o);
      InFlightOne(f, o);
    }
  }

  lemma SendBalanced(w: World, s: State, e: Event, o: Offer)
    requires e.Send? || e.SendEnd? || e.SendBegin?
    ensures Balanced(w, s, e, o)
  {
    if !e.SendBegin? {
      EnqueueStep(w, s, e);
      TimesConcat(s.queue, ToSeq(Enqueues(s, e)), o);
      assert s.queue + [] == s.queue;
    }
  }

  lemma StepBalanced(w: World, s: State, e: Event, o: Offer)
    requires FinishInv(s)
    ensures Balanced(w, s, e, o)
  {
    if Installs(w, s, e) {
      InstallBalanced(w, s, e, o);
    } else if e.KeyNext? {
      if e.k < |s.finishing| { AdvanceBalanced(w, s, e, o); } else { NothingFlushed(w, s, e); }
    } else if e.KeyBegin? {
      BeginBalanced(w, s, e, o);
    } else if e.Send? || e.SendEnd? || e.SendBegin? {
      SendBalanced(w, s, e, o);
    } else if e.Inbound? || !TouchesQueue(e) {
      QuietBalanced(w, s, e, o);
    } else {
      PairBalanced(w, s, e, o);
    }
  }

  lemma QuietBalanced(w: World, s: State, e: Event, o: Offer)
    requires (e.Inbound? && !Installs(w, s, e)) || !TouchesQueue(e)
    ensures Balanced(w, s, e, o)
  {
    QuietFrame(w, s, e);
    NothingFlushed(w, s, e);
  }

  lemma PairBalanced(w: World, s: State, e: Event, o: Offer)
    requires e.Pair? || e.Restart?
    ensures Balanced(w, s, e, o)
  {
  }

  function TimesEnqueued(w: World, events: seq<Event>, o: Offer): nat
    decreases |events|
  {
    if events == [] then 0
    else
      var n := |events| - 1;
      TimesEnqueued(w, events[..n], o) + Times(ToSeq(Enqueues(Run(w, events[..n]), events[n])), o)
  }

  function TimesFlushed(w: World, events: seq<Event>, o: Offer): nat
    decreases |events|
  {
    if events == [] then 0
    else
      var n := |events| - 1;
      TimesFlushed(w, events[..n], o) + Times(Flushes(w, Run(w, events[..n]), events[n]), o)
  }

  function TimesDropped(w: World, events: seq<Event>, o: Offer): nat
    decreases |events|
  {
    if events == [] then 0
    else
      var n := |events| - 1;
      TimesDropped(w, events[..n], o) + Drops(w, Run(w, events[..n]), events[n], o)
  }

  /**
   Over every run whatsoever: as often as a message entered the queue, it is still held, was
   handed to the transport, or was discarded by a new pairing, a restart or an unusable key.
   None is lost otherwise, and none is sent twice.
   */
  lemma {:induction false} QueuedMessagesAreConserved(w: World, events: seq<Event>, o: Offer)
    ensures TimesEnqueued(w, events, o) == Held(Run(w, events), o) + TimesFlushed(w, events, o) + TimesDropped(w, events, o)
    decreases |events|
  {
    if events != [] {
      var n := |events| - 1;
      QueuedMessagesAreConserved(w, events[..n], o);
      RunKeepsFinishers(w, events[..n]);
      StepBalanced(w, Run(w, events[..n]), events[n], o);
    }
  }

  // ---------- a run that breaks the order ----------

  /** One message is queued, the key is installed, and another message is sent before the queue is taken. */
  ghost predicate Overtaken(s: State, m1: Bytes, m2: Bytes) {
    && |s.heap| == 1 && Ready(s.heap[0]) && s.queue == [Offer(0, m1)] && s.wire == [Handed(0, Offer(0, m2))]
    && s.finishing == [Finisher(0, Fresh, [])]
  }

  lemma OvertakingSteps(w: World, kp: KeyPair, name: string, version: string, m1: Bytes, m2: Bytes, frame: Bytes)
    requires var u := Unwrap(w.suite, FreshPairing(kp, name, version), frame);
             u.Installed? && |u.key| == 32 && |kp.secretKey| == 32
    ensures var s1 := Step(w, Init, Pair(Some(kp), name, version));
            var s2 := Step(w, s1, Send(0, m1, true));
            var s3 := Step(w, s2, KeyBegin(0, frame));
            Overtaken(Step(w, s3, Send(0, m2, true)), m1, m2)
  {
    var p := FreshPairing(kp, name, version);
    var s1 := Paired(Init, Some(kp), name, version);
    assert s1.heap == [p] && s1.queue == [] && s1.wire == [] && s1.finishing == [];
    var s2 := Sent(s1, 0, m1, true);
    assert s2 == s1.(queue := [Offer(0, m1)]);
    var s3 := KeyBegun(w, s2, 0, frame);
    var q := p.(enclavePublicKey := Some(Unwrap(w.suite, p, frame).key));
    assert s3 == s2.(heap := [q], finishing := [Finisher(0, Fresh, [])]);
    assert Sent(s3, 0, m2, true) == s3.(wire := [Handed(0, Offer(0, m2))]);
  }

  lemma OvertakingPrefix(w: World, kp: KeyPair, name: string, version: string, m1: Bytes, m2: Bytes, frame: Bytes)
    requires var u := Unwrap(w.suite, FreshPairing(kp, name, version), frame);
             u.Installed? && |u.key| == 32 && |kp.secretKey| == 32
    ensures Overtaken(Run(w, [Pair(Some(kp), name, version)] + [Send(0, m1, true)] + [KeyBegin(0, frame)]
                             + [Send(0, m2, true)]), m1, m2)
  {
    var e1 := [Pair(Some(kp), name, version)];
    var e2 := e1 + [Send(0, m1, true)];
    var e3 := e2 + [KeyBegin(0, frame)];
    OvertakingSteps(w, kp, name, version, m1, m2, frame);
    RunSnoc(w, Init, e3, Send(0, m2, true));
    RunSnoc(w, Init, e2, KeyBegin(0, frame));
    RunSnoc(w, Init, e1, Send(0, m1, true));
    LeadsOne(w, Init, Pair(Some(kp), name, version));
    assert RunFrom(w, Init, e1) == Step(w, Init, Pair(Some(kp), name, version));
  }

  /** So the message sent later arrives first. */
  lemma OvertakingRun(w: World, kp: KeyPair, name: string, version: string, m1: Bytes, m2: Bytes, frame: Bytes)
    requires var u := Unwrap(w.suite, FreshPairing(kp, name, version), frame);
             u.Installed? && |u.key| == 32 && |kp.secretKey| == 32
    ensures Run(w, [Pair(Some(kp), name, version)] + [Send(0, m1, true)] + [KeyBegin(0, frame)] + [Send(0, m2, true)]
                   + Nexts(0, 3)).wire
            == [Handed(0, Offer(0, m2)), Handed(0, Offer(0, m1))]
  {
    var es := [Pair(Some(kp), name, version)] + [Send(0, m1, true)] + [KeyBegin(0, frame)] + [Send(0, m2, true)];
    OvertakingPrefix(w, kp, name, version, m1, m2, frame);
    RunConcat(w, Init, es, Nexts(0, 3));
    TakenLast(w, Run(w, es), m1, m2);
  }

  lemma TakenLast(w: World, s: State, m1: Bytes, m2: Bytes)
    requires Overtaken(s, m1, m2)
    ensures RunFrom(w, s, Nexts(0, 3)).wire == [Handed(0, Offer(0, m2)), Handed(0, Offer(0, m1))]
  {
    var s1 := KeyAdvanced(s, 0);
    assert s1 == s.(queue := [], finishing := [Finisher(0, Taken, s.queue)]);
    var s2 := KeyAdvanced(s1, 0);
    assert s2.finishing == [Finisher(0, Saved, s.queue)] && s2.wire == s.wire && s2.heap == s.heap;
    var s3 := KeyAdvanced(s2, 0);
    LeadsOne(w, s3, Unpair);
    NextLeads(w, s2, 0, 1, s3);
    NextLeads(w, s1, 0, 2, s3);
    NextLeads(w, s, 0, 3, s3);
    assert RunFrom(w, s, Nexts(0, 3)) == s3;
  }
}
