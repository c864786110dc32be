/**
 The stored pairing and the outgoing queue. Each law comes with the steps that
 break it and nothing else: the laws hold over every run without such a step, and
 the last part gives runs that contain one.
 */
module EnclaveQueue {
  import opened Basics
  import opened Pairing
  import opened Enclave
  import EnclaveChannels
  import Lru

  predicate HasKey(s: State) {
    s.current.Some? && s.current.value < |s.heap| && s.heap[s.current.value].enclavePublicKey.Some?
  }

  /** A frame that installs a key in the pairing it was read for. */
  predicate Installs(w: World, s: State, e: Event) {
    e.Inbound? && e.ps < |s.heap| && Unwrap(w.suite, s.heap[e.ps], e.frame).Installed?
  }

  /** The same, for a pairing that was replaced or forgotten since it was read. */
  predicate InstallsLate(w: World, s: State, e: Event) {
    Installs(w, s, e) && s.current != Some(e.ps)
  }

  /** The first region of such a frame, taken on its own. */
  predicate Begins(w: World, s: State, e: Event) {
    e.KeyBegin? && e.ps < |s.heap| && Unwrap(w.suite, s.heap[e.ps], e.frame).Installed?
  }

  /** The next region of a finisher whose pairing exists is at stage `stage`. */
  predicate Finishes(s: State, e: Event, stage: Stage) {
    e.KeyNext? && e.k < |s.finishing| && s.finishing[e.k].ps < |s.heap| && s.finishing[e.k].stage == stage
  }

  /** A pairing that is not current is saved: by a late key, or by the finisher of one. */
  predicate SavesLate(w: World, s: State, e: Event) {
    InstallsLate(w, s, e) || (Finishes(s, e, Taken) && s.current != Some(s.finishing[e.k].ps))
  }

  // ---------- the stored copy ----------

  /** What is stored is what is in memory: absent when unpaired, and field by field otherwise. */
  ghost predicate Mirrored(s: State) {
    match s.current
    case None => s.disk == None
    case Some(p) => p < |s.heap| && s.disk == Some(ToPersisted(s.heap[p]))
  }

  lemma AnnotateMirrors(s: State, ps: nat, r: Response)
    requires Mirrored(s) && ps < |s.heap|
    ensures Mirrored(Annotated(s, ps, r))
  {
  }

  lemma HandleMirrors(s: State, ps: nat, r: Response, medium: Medium)
    requires Mirrored(s) && ps < |s.heap|
    ensures Mirrored(Handled(s, ps, r, medium))
  {
    if !r.unpair { AnnotateMirrors(s, ps, r); }
  }

  lemma InboundMirrors(w: World, s: State, ps: nat, frame: Bytes, medium: Medium)
    requires Mirrored(s) && ps < |s.heap|
    requires Unwrap(w.suite, s.heap[ps], frame).Installed? ==> s.current == Some(ps)
    ensures Mirrored(Inbounded(w, s, ps, frame, medium))
  {
    match Unwrap(w.suite, s.heap[ps], frame)
    case Installed(key) =>
      var p := s.heap[ps].(enclavePublicKey := Some(key));
      AllHandedOverIs(s.(heap := s.heap[ps := p], queue := [], disk := Some(ToPersisted(p))), ps, s.queue);
    case Ciphertext(c) =>
      var m := DecryptMessage(w.suite, s.heap[ps], c);
      if m.Ok? && w.decode(m.value).Some? {
        HandleMirrors(s, ps, w.decode(m.value).value, medium);
      }
    case _ =>
  }

  /** The current pairing gets its key and the stored copy does not, or another pairing is saved. */
  predicate BreaksMirror(w: World, s: State, e: Event) {
    (Begins(w, s, e) && s.current == Some(e.ps)) || SavesLate(w, s, e)
  }

  lemma StepMirrors(w: World, s: State, e: Event)
    requires Mirrored(s) && !BreaksMirror(w, s, e)
    ensures Mirrored(Step(w, s, e))
  {
    match e
    case Inbound(ps, frame, medium) => if ps < |s.heap| { InboundMirrors(w, s, ps, frame, medium); }
    case Deliver(ps, r, medium) => if ps < |s.heap| { HandleMirrors(s, ps, r, medium); }
    case Restart =>
      if s.disk.Some? { PersistenceRoundTrip(FromPersisted(s.disk.value), s.disk.value); }
    case _ => if SparesPairing(e) { SparedPairing(w, s, e); }
  }

  predicate SparesPairing(e: Event) {
    || e.Register? || e.Take? || e.Send? || e.SendBegin? || e.SendEnd? || e.Poll? || e.GiveUp? || e.CacheMe?
  }

  lemma SparedPairing(w: World, s: State, e: Event)
    requires SparesPairing(e)
    ensures var t := Step(w, s, e); t.heap == s.heap && t.current == s.current && t.disk == s.disk
    ensures Step(w, s, e).finishing == s.finishing
  {
  }

  /** No two pairings share their workstation public key. */
  ghost predicate KeysApart(s: State) {
    forall i, j :: 0 <= i < j < |s.heap| ==> !Equals(s.heap[i], s.heap[j])
  }

  /** Exactly these steps make the stored copy differ from the pairing in memory. */
  lemma StepMirrorsIff(w: World, s: State, e: Event)
    requires Mirrored(s) && KeysApart(s)
    ensures Mirrored(Step(w, s, e)) <==> !BreaksMirror(w, s, e)
  {
    if !BreaksMirror(w, s, e) {
      StepMirrors(w, s, e);
    } else if e.Inbound? {
      LateKeyMirrorsIff(w, s, e.ps, e.frame, e.medium);
    } else if e.KeyNext? {
      LateSaveBreaks(s, e.k);
    } else {
      KeyBeginBreaks(w, s, e.ps, e.frame);
    }
  }

  lemma LateSaveBreaks(s: State, k: nat)
    requires Mirrored(s) && KeysApart(s) && k < |s.finishing| && s.finishing[k].ps < |s.heap|
    requires s.finishing[k].stage == Taken && s.current != Some(s.finishing[k].ps)
    ensures !Mirrored(KeyAdvanced(s, k))
  {
  }

  lemma KeyBeginBreaks(w: World, s: State, ps: nat, frame: Bytes)
    requires Mirrored(s) && ps < |s.heap| && s.current == Some(ps) && Unwrap(w.suite, s.heap[ps], frame).Installed?
    ensures !Mirrored(KeyBegun(w, s, ps, frame))
  {
  }

  /** The current pairing has a key that is not saved yet. */
  predicate Unsaved(s: State) {
    s.current.Some? && exists f :: f in s.finishing && f.ps == s.current.value && f.stage != Saved
  }

  /** As `Mirrored`, but the key may be missing from the stored copy while it is not saved yet. */
  ghost predicate MirroredUpToKey(s: State) {
    match s.current
    case None => s.disk == None
    case Some(p) =>
      && p < |s.heap|
      && (s.disk == Some(ToPersisted(s.heap[p])) ||
          (Unsaved(s) && s.disk == Some(ToPersisted(s.heap[p].(enclavePublicKey := None)))))
  }

  lemma AdvanceKeepsOthers(s: State, k: nat, f: Finisher)
    requires k < |s.finishing| && f in s.finishing && f != s.finishing[k]
    ensures f in KeyAdvanced(s, k).finishing
  {
    var i :| 0 <= i < |s.finishing| && s.finishing[i] == f;
    var t := KeyAdvanced(s, k).finishing;
    if |t| < |s.finishing| {
      assert t == s.finishing[..k] + s.finishing[k + 1..];
      assert t[if i < k then i else i - 1] == f;
    } else {
      assert t[i] == f;
    }
  }

  lemma KeyNextUpToKey(s: State, k: nat)
    requires MirroredUpToKey(s) && k < |s.finishing|
    requires s.finishing[k].ps < |s.heap| && s.finishing[k].stage == Taken ==> s.current == Some(s.finishing[k].ps)
    ensures MirroredUpToKey(KeyAdvanced(s, k))
  {
    var g, t := s.finishing[k], KeyAdvanced(s, k);
    if s.current.Some? && s.disk != Some(ToPersisted(s.heap[s.current.value])) && g.ps < |s.heap| && g.stage != Taken {
      var f :| f in s.finishing && f.ps == s.current.value && f.stage != Saved;
      if f == g {
        assert t.finishing[k] == f.(stage := Taken, batch := s.queue);
      } else {
        AdvanceKeepsOthers(s, k, f);
      }
    }
  }

  lemma ReceiptUpToKey(w: World, s: State, e: Event)
    requires MirroredUpToKey(s) && EnclaveChannels.IsReceipt(e) && !InstallsLate(w, s, e)
    ensures MirroredUpToKey(Step(w, s, e))
  {
    if e.ps < |s.heap| {
      if e.Deliver? {
        HandledUpToKey(s, e.ps, e.response, e.medium);
      } else {
        match Unwrap(w.suite, s.heap[e.ps], e.frame)
        case Installed(key) =>
          var p := s.heap[e.ps].(enclavePublicKey := Some(key));
          AllHandedOverIs(s.(heap := s.heap[e.ps := p], queue := [], disk := Some(ToPersisted(p))), e.ps, s.queue);
        case Ciphertext(c) =>
          var m := DecryptMessage(w.suite, s.heap[e.ps], c);
          if m.Ok? && w.decode(m.value).Some? { HandledUpToKey(s, e.ps, w.decode(m.value).value, e.medium); }
        case _ =>
      }
    }
  }

  lemma HandledUpToKey(s: State, ps: nat, r: Response, medium: Medium)
    requires MirroredUpToKey(s) && ps < |s.heap|
    ensures MirroredUpToKey(Handled(s, ps, r, medium))
  {
    if !r.unpair { AnnotatedUpToKey(s, ps, r); }
  }

  lemma AnnotatedUpToKey(s: State, ps: nat, r: Response)
    requires MirroredUpToKey(s) && ps < |s.heap|
    ensures MirroredUpToKey(Annotated(s, ps, r))
  {
  }

  lemma StepMirrorsUpToKey(w: World, s: State, e: Event)
    requires MirroredUpToKey(s) && !SavesLate(w, s, e)
    ensures MirroredUpToKey(Step(w, s, e))
  {
    if EnclaveChannels.IsReceipt(e) {
      ReceiptUpToKey(w, s, e);
    } else if e.KeyNext? {
      if e.k < |s.finishing| { KeyNextUpToKey(s, e.k); }
    } else if e.KeyBegin? {
      if e.ps < |s.heap| { KeyBegunUpToKey(w, s, e.ps, e.frame); }
    } else if e.Restart? {
      if s.disk.Some? { PersistenceRoundTrip(FromPersisted(s.disk.value), s.disk.value); }
    } else if SparesPairing(e) {
      SparedPairing(w, s, e);
    }
  }

  lemma KeyBegunUpToKey(w: World, s: State, ps: nat, frame: Bytes)
    requires MirroredUpToKey(s) && ps < |s.heap|
    ensures MirroredUpToKey(KeyBegun(w, s, ps, frame))
  {
    var t := KeyBegun(w, s, ps, frame);
    assert forall f :: f in s.finishing ==> f in t.finishing;
    if Unwrap(w.suite, s.heap[ps], frame).Installed? {
      assert Finisher(ps, Fresh, []) in t.finishing;
      assert s.heap[ps] == s.heap[ps].(enclavePublicKey := None);
      assert t.heap[ps].(enclavePublicKey := None) == s.heap[ps];
    }
  }

  ghost predicate NeverSavesLate(w: World, events: seq<Event>)
    decreases |events|
  {
    events == [] ||
    var n := |events| - 1;
    NeverSavesLate(w, events[..n]) && !SavesLate(w, Run(w, events[..n]), events[n])
  }

  lemma {:induction false} RunMirrorsUpToKey(w: World, events: seq<Event>)
    requires NeverSavesLate(w, events)
    ensures MirroredUpToKey(Run(w, events))
    decreases |events|
  {
    if events != [] {
      var n := |events| - 1;
      RunMirrorsUpToKey(w, events[..n]);
      StepMirrorsUpToKey(w, Run(w, events[..n]), events[n]);
    }
  }

  /**
   After every run in which no replaced pairing is saved, at whatever granularity and
   whatever else is interleaved, a crash followed by Start brings back the same pairing
   in every field except its version; and except its key, in case the crash comes
   between the installation of the key and its saving.
   */
  lemma CrashRestoresPairing(w: World, events: seq<Event>)
    requires NeverSavesLate(w, events)
    ensures var s := Run(w, events);
            var t := Run(w, events + [Restart]);
            && (s.current == None <==> s.disk == None)
            && (s.current == None ==> t.current == None)
            && (s.current.Some? ==>
                  && s.current.value < |s.heap| && t.current.Some? && t.current.value < |t.heap|
                  && var p, q := s.heap[s.current.value].(version := ""), t.heap[t.current.value];
                  q == p || (Unsaved(s) && q == p.(enclavePublicKey := None)))
            && t.disk == s.disk
  {
    RunMirrorsUpToKey(w, events);
    RunSnoc(w, Init, events, Restart);
  }

  // ---------- an empty queue once the key is there ----------

  /** The current pairing got its key, and whoever installed it has yet to take the queue. */
  predicate Awaited(s: State) {
    s.current.Some? && exists f :: f in s.finishing && f.ps == s.current.value && f.stage == Fresh
  }

  ghost predicate QueueLaw(s: State) {
    HasKey(s) && !Awaited(s) ==> s.queue == []
  }

  /** The step puts this message into the queue. */
  function Enqueues(s: State, e: Event): Option<Offer> {
    if |s.queue| >= QUEUE_SIZE then None
    else
      match e
      case SendEnd(k) => if k < |s.waiting| && s.waiting[k].queueable then Some(s.waiting[k].offer) else None
      case Send(ps, m, queueable) =>
        if queueable && ps < |s.heap| && s.heap[ps].enclavePublicKey == None then Some(Offer(ps, m)) else None
      case _ => None
  }

  /** A send that found the key missing, under its own pairing or before the key came, enqueues after the queue was taken. */
  predicate Strands(s: State, e: Event) {
    HasKey(s) && !Awaited(s) && Enqueues(s, e).Some?
  }

  lemma KeyNextLaw(s: State, k: nat)
    requires QueueLaw(s) && k < |s.finishing|
    ensures QueueLaw(KeyAdvanced(s, k))
  {
    var g := s.finishing[k];
    if Awaited(s) && g.ps < |s.heap| && g.stage != Fresh {
      var f :| f in s.finishing && f.ps == s.current.value && f.stage == Fresh;
      AdvanceKeepsOthers(s, k, f);
    }
  }

  lemma KeyBeginLaw(w: World, s: State, ps: nat, frame: Bytes)
    requires QueueLaw(s) && ps < |s.heap|
    ensures QueueLaw(KeyBegun(w, s, ps, frame))
  {
    var t := KeyBegun(w, s, ps, frame);
    assert forall f :: f in s.finishing ==> f in t.finishing;
    if Unwrap(w.suite, s.heap[ps], frame).Installed? { assert Finisher(ps, Fresh, []) in t.finishing; }
  }

  lemma InboundLaw(w: World, s: State, ps: nat, frame: Bytes, medium: Medium)
    requires QueueLaw(s) && ps < |s.heap|
    ensures QueueLaw(Inbounded(w, s, ps, frame, medium))
  {
    match Unwrap(w.suite, s.heap[ps], frame)
    case Installed(key) =>
      var p := s.heap[ps].(enclavePublicKey := Some(key));
      AllHandedOverIs(s.(heap := s.heap[ps := p], queue := [], disk := Some(ToPersisted(p))), ps, s.queue);
    case Ciphertext(c) =>
      var m := DecryptMessage(w.suite, s.heap[ps], c);
      if m.Ok? && w.decode(m.value).Some? {
        HandledFrame(s, ps, w.decode(m.value).value, medium);
      }
    case _ =>
  }

  /** Exactly these steps leave a message queued behind a present key, with nobody about to take it. */
  lemma StepStrandsIff(w: World, s: State, e: Event)
    requires QueueLaw(s)
    ensures QueueLaw(Step(w, s, e)) <==> !Strands(s, e)
  {
    if !TouchesQueue(e) {
      OtherStepFrame(w, s, e);
    } else if e.Inbound? {
      if e.ps < |s.heap| { InboundLaw(w, s, e.ps, e.frame, e.medium); }
    } else if e.KeyNext? {
      if e.k < |s.finishing| { KeyNextLaw(s, e.k); }
    } else if e.KeyBegin? {
      if e.ps < |s.heap| { KeyBeginLaw(w, s, e.ps, e.frame); }
    } else if e.SendEnd? || e.Send? {
      EnqueueStep(w, s, e);
    }
  }

  /** A send, or its second half, that does not find a usable key changes at most the queue. */
  lemma EnqueueStep(w: World, s: State, e: Event)
    requires e.SendEnd? || e.Send?
    ensures var t := Step(w, s, e);
            && t.queue == s.queue + (if Enqueues(s, e).Some? then [Enqueues(s, e).value] else [])
            && t.heap == s.heap && t.current == s.current && t.finishing == s.finishing
            && (e.SendEnd? ==> t.wire == s.wire)
  {
  }

  ghost predicate NeverStrands(w: World, events: seq<Event>)
    decreases |events|
  {
    events == [] ||
    var n := |events| - 1;
    NeverStrands(w, events[..n]) && !Strands(Run(w, events[..n]), events[n])
  }

  /**
   Over every run without such a step, the queue is empty whenever the current pairing
   has its key and whoever installed it has taken the queue.
   */
  lemma {:induction false} EmptyOnceKeyed(w: World, events: seq<Event>)
    requires NeverStrands(w, events)
    ensures var s := Run(w, events); HasKey(s) && !Awaited(s) ==> s.queue == []
    decreases |events|
  {
    if events != [] {
      var n := |events| - 1;
      EmptyOnceKeyed(w, events[..n]);
      StepStrandsIff(w, Run(w, events[..n]), events[n]);
    }
  }

  // ---------- orderly runs ----------

  /**
   Queueable messages are checked and enqueued in one step under the current pairing, a
   key frame is handled in one step, and no key comes late. Everything else, replies for
   replaced pairings included, is free.
   */
  predicate Orderly(w: World, s: State, e: Event) {
    match e
    case Inbound(_, _, _) => !InstallsLate(w, s, e)
    case Send(ps, _, queueable) => queueable ==> s.current == Some(ps)
    case SendBegin(_, _, _) => false
    case SendEnd(_) => false
    case KeyBegin(_, _) => false
    case KeyNext(_) => false
    case _ => true
  }

  ghost predicate OrderlyRun(w: World, events: seq<Event>)
    decreases |events|
  {
    events == [] ||
    var n := |events| - 1;
    OrderlyRun(w, events[..n]) && Orderly(w, Run(w, events[..n]), events[n])
  }

  ghost predicate OrderlyInv(s: State) {
    && (s.current.Some? ==> s.current.value < |s.heap|)
    && |s.queue| <= QUEUE_SIZE
    && QueueLaw(s)
    && s.finishing == []
  }

  lemma OrderlyStrandsNot(w: World, s: State, e: Event)
    requires Orderly(w, s, e)
    ensures !Strands(s, e) && !BreaksMirror(w, s, e)
  {
  }

  lemma OrderlyFinishesNothing(w: World, s: State, e: Event)
    requires Orderly(w, s, e) && s.finishing == []
    ensures Step(w, s, e).finishing == []
  {
    if !TouchesQueue(e) {
      OtherStepFrame(w, s, e);
    } else if e.Inbound? && e.ps < |s.heap| {
      InboundFinishing(w, s, e.ps, e.frame, e.medium);
    }
  }

  lemma InboundFinishing(w: World, s: State, ps: nat, frame: Bytes, medium: Medium)
    requires ps < |s.heap|
    ensures Inbounded(w, s, ps, frame, medium).finishing == s.finishing
  {
    match Unwrap(w.suite, s.heap[ps], frame)
    case Installed(key) =>
      var p := s.heap[ps].(enclavePublicKey := Some(key));
      AllHandedOverIs(s.(heap := s.heap[ps := p], queue := [], disk := Some(ToPersisted(p))), ps, s.queue);
    case Ciphertext(c) =>
      var m := DecryptMessage(w.suite, s.heap[ps], c);
      if m.Ok? && w.decode(m.value).Some? { HandledFrame(s, ps, w.decode(m.value).value, medium); }
    case _ =>
  }

  lemma {:induction false} OrderlyRunKeeps(w: World, events: seq<Event>)
    requires OrderlyRun(w, events)
    ensures OrderlyInv(Run(w, events)) && Mirrored(Run(w, events))
    decreases |events|
  {
    if events != [] {
      var n := |events| - 1;
      var s := Run(w, events[..n]);
      OrderlyRunKeeps(w, events[..n]);
      OrderlyStrandsNot(w, s, events[n]);
      StepMirrors(w, s, events[n]);
      StepStrandsIff(w, s, events[n]);
      OrderlyFinishesNothing(w, s, events[n]);
    }
    QueueNeverExceedsBound(w, events);
  }

  // ---------- the outgoing queue ----------

  /** The messages handed to the transport under pairing `p`, in order. */
  function WireOf(wire: seq<Handed>, p: nat): seq<Offer> {
    if wire == [] then []
    else
      var n := |wire| - 1;
      WireOf(wire[..n], p) + if wire[n].pairing == p then [wire[n].offer] else []
  }

  /** What callers asked to send, queueing allowed, since the current pairing was made and before its key came. */
  function OfferedBeforeKey(w: World, events: seq<Event>): seq<Offer>
    decreases |events|
  {
    if events == [] then []
    else
      var n := |events| - 1;
      var s := Run(w, events[..n]);
      match events[n]
      case Pair(Some(_), _, _) => []
      case Restart => []
      case Send(ps, m, queueable) =>
        if queueable && s.current == Some(ps) && !HasKey(s)
        then OfferedBeforeKey(w, events[..n]) + [Offer(ps, m)]
        else OfferedBeforeKey(w, events[..n])
      case _ => OfferedBeforeKey(w, events[..n])
  }

  /** What callers asked to send under the current pairing after its key came. */
  function SentAfterKey(w: World, events: seq<Event>): seq<Offer>
    decreases |events|
  {
    if events == [] then []
    else
      var n := |events| - 1;
      var s := Run(w, events[..n]);
      match events[n]
      case Pair(Some(_), _, _) => []
      case Restart => []
      case Send(ps, m, _) =>
        if s.current == Some(ps) && HasKey(s)
        then SentAfterKey(w, events[..n]) + [Offer(ps, m)]
        else SentAfterKey(w, events[..n])
      case _ => SentAfterKey(w, events[..n])
  }

  function FirstOf(messages: seq<Offer>, n: nat): seq<Offer> {
    if |messages| <= n then messages else messages[..n]
  }

  /** The history of a pairing, as the queue and the transport should reflect it. */
  ghost predicate FifoInv(s: State, offered: seq<Offer>, later: seq<Offer>) {
    && (forall i :: 0 <= i < |s.wire| ==> s.wire[i].pairing < |s.heap|)
    && (s.current.Some? ==>
          && s.current.value < |s.heap|
          && (!HasKey(s) ==>
                later == [] && s.queue == FirstOf(offered, QUEUE_SIZE) && WireOf(s.wire, s.current.value) == [])
          && (HasKey(s) ==>
                WireOf(s.wire, s.current.value) ==
                if Ready(s.heap[s.current.value]) then FirstOf(offered, QUEUE_SIZE) + later else []))
  }

  lemma {:induction false} WireOfConcat(a: seq<Handed>, b: seq<Handed>, p: nat)
    ensures WireOf(a + b, p) == WireOf(a, p) + WireOf(b, p)
    decreases |b|
  {
    if b == [] {
      assert a + b == a;
    } else {
      var n := |b| - 1;
      assert (a + b)[..|a| + n] == a + b[..n] && (a + b)[|a| + n] == b[n];
      WireOfConcat(a, b[..n], p);
    }
  }

  lemma WireOfSnoc(wire: seq<Handed>, h: Handed, p: nat)
    ensures WireOf(wire + [h], p) == WireOf(wire, p) + if h.pairing == p then [h.offer] else []
  {
    assert (wire + [h])[..|wire|] == wire;
  }

  lemma {:induction false} WireOfBatch(messages: seq<Offer>, p: nat)
    ensures WireOf(Batch(p, messages), p) == messages
    decreases |messages|
  {
    if messages != [] {
      var n := |messages| - 1;
      WireOfBatch(messages[..n], p);
      assert Batch(p, messages)[..n] == Batch(p, messages[..n]);
    }
  }

  lemma {:induction false} WireOfForeign(wire: seq<Handed>, p: nat)
    requires forall i :: 0 <= i < |wire| ==> wire[i].pairing != p
    ensures WireOf(wire, p) == []
    decreases |wire|
  {
    if wire != [] { WireOfForeign(wire[..|wire| - 1], p); }
  }

  lemma FifoSame(s: State, t: State, offered: seq<Offer>, later: seq<Offer>)
    requires FifoInv(s, offered, later)
    requires t.wire == s.wire && t.queue == s.queue && |t.heap| == |s.heap|
    requires t.current == None || t.current == s.current
    requires t.current.Some? ==>
               && t.heap[t.current.value].enclavePublicKey == s.heap[t.current.value].enclavePublicKey
               && t.heap[t.current.value].workstationSecretKey == s.heap[t.current.value].workstationSecretKey
    ensures FifoInv(t, offered, later)
  {
  }

  lemma FifoPair(w: World, s: State, e: Event, offered: seq<Offer>, later: seq<Offer>)
    requires FifoInv(s, offered, later) && e.Pair?
    ensures e.keys.Some? ==> FifoInv(Step(w, s, e), [], [])
    ensures e.keys == None ==> FifoInv(Step(w, s, e), offered, later)
  {
    if e.keys.Some? { WireOfForeign(s.wire, |s.heap|); }
  }

  lemma FifoSend(w: World, s: State, e: Event, offered: seq<Offer>, later: seq<Offer>)
    requires OrderlyInv(s) && FifoInv(s, offered, later) && e.Send? && Orderly(w, s, e)
    ensures var here := s.current == Some(e.ps);
            FifoInv(Step(w, s, e),
                    if e.queueable && here && !HasKey(s) then offered + [Offer(e.ps, e.message)] else offered,
                    if here && HasKey(s) then later + [Offer(e.ps, e.message)] else later)
  {
    var t := Step(w, s, e);
    if e.ps >= |s.heap| {
      assert t == s;
    } else {
      assert t == Sent(s, e.ps, e.message, e.queueable);
      if s.heap[e.ps].enclavePublicKey == None {
        FifoQueued(s, e.ps, e.message, e.queueable, offered, later);
      } else {
        FifoHanded(s, e.ps, Offer(e.ps, e.message), offered, later);
      }
    }
  }

  lemma FifoQueued(s: State, ps: nat, m: Bytes, queueable: bool, offered: seq<Offer>, later: seq<Offer>)
    requires FifoInv(s, offered, later) && ps < |s.heap| && s.heap[ps].enclavePublicKey == None
    requires queueable ==> s.current == Some(ps)
    ensures FifoInv(Sent(s, ps, m, queueable), if queueable then offered + [Offer(ps, m)] else offered, later)
  {
    if queueable { assert |offered| < QUEUE_SIZE ==> (offered + [Offer(ps, m)])[..|offered|] == offered; }
  }

  lemma FifoHanded(s: State, ps: nat, o: Offer, offered: seq<Offer>, later: seq<Offer>)
    requires FifoInv(s, offered, later) && ps < |s.heap| && s.heap[ps].enclavePublicKey.Some?
    ensures FifoInv(HandedOver(s, ps, o), offered, if s.current == Some(ps) then later + [o] else later)
  {
    if Ready(s.heap[ps]) && s.current.Some? {
      WireOfSnoc(s.wire, Handed(ps, o), s.current.value);
      var first := FirstOf(offered, QUEUE_SIZE);
      assert first + (later + [o]) == first + later + [o];
    }
  }

  lemma FifoInbound(w: World, s: State, ps: nat, frame: Bytes, medium: Medium, offered: seq<Offer>, later: seq<Offer>)
    requires OrderlyInv(s) && FifoInv(s, offered, later) && ps < |s.heap|
    requires Unwrap(w.suite, s.heap[ps], frame).Installed? ==> s.current == Some(ps)
    ensures FifoInv(Inbounded(w, s, ps, frame, medium), offered, later)
  {
    var t := Inbounded(w, s, ps, frame, medium);
    match Unwrap(w.suite, s.heap[ps], frame)
    case Installed(key) => FifoInstalled(w, s, ps, frame, medium, offered, later);
    case Ciphertext(c) =>
      var m := DecryptMessage(w.suite, s.heap[ps], c);
      if m.Ok? && w.decode(m.value).Some? {
        HandledFrame(s, ps, w.decode(m.value).value, medium);
        FifoSame(s, t, offered, later);
      }
    case _ =>
  }

  lemma FifoInstalled(w: World, s: State, ps: nat, frame: Bytes, medium: Medium, offered: seq<Offer>, later: seq<Offer>)
    requires FifoInv(s, offered, later) && ps < |s.heap| && s.current == Some(ps)
    requires Unwrap(w.suite, s.heap[ps], frame).Installed?
    ensures FifoInv(Inbounded(w, s, ps, frame, medium), offered, later)
  {
    InstalledIs(w, s, ps, frame, medium);
    var t := Inbounded(w, s, ps, frame, medium);
    assert !HasKey(s) && later == [] && s.queue == FirstOf(offered, QUEUE_SIZE) && WireOf(s.wire, ps) == [];
    assert FirstOf(offered, QUEUE_SIZE) + later == s.queue;
    if Ready(t.heap[ps]) {
      WireOfFlush(s.wire, s.queue, ps);
      WireStaysInRange(s.wire, s.queue, ps, |s.heap|);
      assert WireOf(t.wire, ps) == s.queue;
    } else {
      assert t.wire == s.wire;
    }
  }

  lemma WireStaysInRange(wire: seq<Handed>, offers: seq<Offer>, p: nat, n: nat)
    requires p < n && forall i :: 0 <= i < |wire| ==> wire[i].pairing < n
    ensures forall i :: 0 <= i < |wire + Batch(p, offers)| ==> (wire + Batch(p, offers))[i].pairing < n
  {
  }

  lemma WireOfFlush(wire: seq<Handed>, offers: seq<Offer>, p: nat)
    ensures WireOf(wire + Batch(p, offers), p) == WireOf(wire, p) + offers
  {
    WireOfConcat(wire, Batch(p, offers), p);
    WireOfBatch(offers, p);
  }

  predicate TouchesQueue(e: Event) {
    e.Pair? || e.Send? || e.SendBegin? || e.SendEnd? || e.Inbound? || e.KeyBegin? || e.KeyNext? || e.Restart?
  }

  /** A pairing's own keys, which no reply changes. */
  ghost predicate SameKeys(s: State, t: State) {
    && |t.heap| == |s.heap|
    && forall i :: 0 <= i < |s.heap| ==>
         && t.heap[i].enclavePublicKey == s.heap[i].enclavePublicKey
         && t.heap[i].workstationSecretKey == s.heap[i].workstationSecretKey
  }

  lemma AnsweredFrame(s: State, r: Response, medium: Medium)
    ensures SamePairing(s, Answered(s, r, medium))
  {
  }

  lemma AnnotatedFrame(s: State, ps: nat, r: Response)
    requires ps < |s.heap|
    ensures var t := Annotated(s, ps, r);
            SameKeys(s, t) && t.wire == s.wire && t.queue == s.queue && t.current == s.current && t.finishing == s.finishing
  {
  }

  lemma HandledFrame(s: State, ps: nat, r: Response, medium: Medium)
    requires ps < |s.heap|
    ensures var t := Handled(s, ps, r, medium);
            && SameKeys(s, t) && t.wire == s.wire && t.queue == s.queue && t.finishing == s.finishing
            && (t.current == None || t.current == s.current)
  {
    if !r.unpair {
      AnnotatedFrame(s, ps, r);
      AnsweredFrame(Annotated(s, ps, r), r, medium);
    }
  }

  lemma OtherStepFrame(w: World, s: State, e: Event)
    requires !TouchesQueue(e)
    ensures var t := Step(w, s, e);
            && SameKeys(s, t) && t.wire == s.wire && t.queue == s.queue && t.finishing == s.finishing
            && (t.current == None || t.current == s.current)
  {
    match e
    case Deliver(ps, r, medium) => if ps < |s.heap| { HandledFrame(s, ps, r, medium); }
    case _ =>
  }

  lemma {:induction false} FifoRun(w: World, events: seq<Event>)
    requires OrderlyRun(w, events)
    ensures FifoInv(Run(w, events), OfferedBeforeKey(w, events), SentAfterKey(w, events))
    decreases |events|
  {
    if events != [] {
      var n := |events| - 1;
      var s := Run(w, events[..n]);
      var e := events[n];
      FifoRun(w, events[..n]);
      OrderlyRunKeeps(w, events[..n]);
      var offered, later := OfferedBeforeKey(w, events[..n]), SentAfterKey(w, events[..n]);
      if !TouchesQueue(e) {
        OtherStepFrame(w, s, e);
        FifoSame(s, Step(w, s, e), offered, later);
      } else {
        match e
        case Pair(_, _, _) => FifoPair(w, s, e, offered, later);
        case Send(_, _, _) => FifoSend(w, s, e, offered, later);
        case Inbound(ps, frame, medium) => if ps < |s.heap| { FifoInbound(w, s, ps, frame, medium, offered, later); }
        case Restart =>
      }
    }
  }

  /**
   In every orderly run: while the key is awaited nothing is handed to the
   transport and the queue holds the first 128 queueable messages in order; once a
   usable key is there, the transport has received exactly those, once each and in
   order, followed by everything sent since; and with an unusable key, nothing.

   The order rests on a key frame being handled in one step. EnclaveOrder has the order at
   the finer granularity, and the steps that break it.
   */
  lemma QueuedMessagesReachTransport(w: World, events: seq<Event>)
    requires OrderlyRun(w, events)
    ensures var s := Run(w, events);
            var offered := OfferedBeforeKey(w, events);
            && |s.queue| <= QUEUE_SIZE
            && (s.current.Some? ==>
                  var p := s.current.value;
                  && p < |s.heap|
                  && (s.heap[p].enclavePublicKey == None ==>
                        s.queue == FirstOf(offered, QUEUE_SIZE) && WireOf(s.wire, p) == [])
                  && (Ready(s.heap[p]) ==>
                        s.queue == [] && WireOf(s.wire, p) == FirstOf(offered, QUEUE_SIZE) + SentAfterKey(w, events))
                  && (s.heap[p].enclavePublicKey.Some? && !Ready(s.heap[p]) ==>
                        s.queue == [] && WireOf(s.wire, p) == []))
  {
    OrderlyRunKeeps(w, events);
    FifoRun(w, events);
  }

  // ---------- outside orderly runs ----------

  lemma InboundQueueBound(w: World, s: State, ps: nat, frame: Bytes, medium: Medium)
    requires ps < |s.heap| && |s.queue| <= QUEUE_SIZE
    ensures |Inbounded(w, s, ps, frame, medium).queue| <= QUEUE_SIZE
  {
    match Unwrap(w.suite, s.heap[ps], frame)
    case Installed(key) =>
      var p := s.heap[ps].(enclavePublicKey := Some(key));
      AllHandedOverIs(s.(heap := s.heap[ps := p], queue := [], disk := Some(ToPersisted(p))), ps, s.queue);
    case _ =>
  }

  /** The queue bound needs no orderliness at all. */
  lemma {:induction false} QueueNeverExceedsBound(w: World, events: seq<Event>)
    ensures |Run(w, events).queue| <= QUEUE_SIZE
    decreases |events|
  {
    if events != [] {
      var n := |events| - 1;
      QueueNeverExceedsBound(w, events[..n]);
      var s := Run(w, events[..n]);
      StepQueueBound(w, s, events[n]);
    }
  }

  lemma StepQueueBound(w: World, s: State, e: Event)
    requires |s.queue| <= QUEUE_SIZE
    ensures |Step(w, s, e).queue| <= QUEUE_SIZE
  {
    if !TouchesQueue(e) {
      OtherStepFrame(w, s, e);
    } else if e.Inbound? {
      if e.ps < |s.heap| { InboundQueueBound(w, s, e.ps, e.frame, e.medium); }
    } else if e.Send? || e.SendEnd? {
      EnqueueStep(w, s, e);
    }
  }

  /** A message lies in the queue although the key is there, and nothing was sent. */
  ghost predicate Stranded(s: State, m: Bytes) {
    HasKey(s) && s.finishing == [] && s.queue == [Offer(0, m)] && s.wire == []
  }

  /** A run that does it: the key arrives between the check and the enqueue. */
  lemma TwoStepSendStrands(w: World, kp: KeyPair, name: string, version: string, m: Bytes, frame: Bytes, medium: Medium)
    requires Unwrap(w.suite, FreshPairing(kp, name, version), frame).Installed?
    ensures Stranded(Run(w, [Pair(Some(kp), name, version)] + [SendBegin(0, m, true)]
                            + [Inbound(0, frame, medium)] + [SendEnd(0)]), m)
  {
    var e1 := [Pair(Some(kp), name, version)];
    var e2 := e1 + [SendBegin(0, m, true)];
    var e3 := e2 + [Inbound(0, frame, medium)];
    StrandingSteps(w, kp, name, version, m, frame, medium);
    RunSnoc(w, Init, e3, SendEnd(0));
    RunSnoc(w, Init, e2, Inbound(0, frame, medium));
    RunSnoc(w, Init, e1, SendBegin(0, m, true));
    LeadsOne(w, Init, Pair(Some(kp), name, version));
    assert RunFrom(w, Init, e1) == Step(w, Init, Pair(Some(kp), name, version));
  }

  lemma StrandingSteps(w: World, kp: KeyPair, name: string, version: string, m: Bytes, frame: Bytes, medium: Medium)
    requires Unwrap(w.suite, FreshPairing(kp, name, version), frame).Installed?
    ensures var s1 := Step(w, Init, Pair(Some(kp), name, version));
            var s2 := Step(w, s1, SendBegin(0, m, true));
            var s3 := Step(w, s2, Inbound(0, frame, medium));
            Stranded(Step(w, s3, SendEnd(0)), m)
  {
    var p := FreshPairing(kp, name, version);
    var s1 := Paired(Init, Some(kp), name, version);
    assert s1.heap == [p] && s1.current == Some(0) && s1.queue == [] && s1.waiting == [] && s1.wire == [] && s1.finishing == [];
    var s2 := SendBegun(s1, 0, m, true);
    assert s2 == s1.(waiting := [Sender(Offer(0, m), true)]);
    InstalledInto(w, s2, 0, frame, medium);
  }

  /** A key that arrives while nothing is queued only changes the pairing and its stored copy. */
  lemma InstalledInto(w: World, s: State, ps: nat, frame: Bytes, medium: Medium)
    requires ps < |s.heap| && s.queue == [] && Unwrap(w.suite, s.heap[ps], frame).Installed?
    ensures var p := s.heap[ps].(enclavePublicKey := Some(Unwrap(w.suite, s.heap[ps], frame).key));
            Inbounded(w, s, ps, frame, medium) == s.(heap := s.heap[ps := p], disk := Some(ToPersisted(p)))
  {
  }

  /** The state after pairing twice. */
  function PairedTwice(k1: KeyPair, k2: KeyPair, name: string, version: string): State {
    var p1, p2 := FreshPairing(k1, name, version), FreshPairing(k2, name, version);
    Init.(heap := [p1, p2], current := Some(1), disk := Some(ToPersisted(p2)))
  }

  lemma PairTwice(w: World, k1: KeyPair, k2: KeyPair, name: string, version: string)
    ensures Run(w, [Pair(Some(k1), name, version)] + [Pair(Some(k2), name, version)]) ==
            PairedTwice(k1, k2, name, version)
  {
    var e1, e2 := Pair(Some(k1), name, version), Pair(Some(k2), name, version);
    RunSnoc(w, Init, [e1], e2);
    LeadsOne(w, Init, e1);
    var s1 := RunFrom(w, Init, [e1]);
    assert s1 == Paired(Init, Some(k1), name, version);
    assert UnpairedCurrent(s1) == s1.(current := None, disk := None);
  }

  /** A run in which a one-step send strands its message: its pairing was replaced, and the new one has its key. */
  lemma LateSendStrands(w: World, k1: KeyPair, k2: KeyPair, name: string, version: string,
                        m: Bytes, frame: Bytes, medium: Medium)
    requires Unwrap(w.suite, FreshPairing(k2, name, version), frame).Installed?
    ensures Stranded(Run(w, [Pair(Some(k1), name, version)] + [Pair(Some(k2), name, version)]
                            + [Inbound(1, frame, medium)] + [Send(0, m, true)]), m)
  {
    var es := [Pair(Some(k1), name, version)] + [Pair(Some(k2), name, version)];
    var s := PairedTwice(k1, k2, name, version);
    PairTwice(w, k1, k2, name, version);
    RunSnoc(w, Init, es, Inbound(1, frame, medium));
    RunSnoc(w, Init, es + [Inbound(1, frame, medium)], Send(0, m, true));
    InstalledInto(w, s, 1, frame, medium);
    assert Inbounded(w, s, 1, frame, medium).heap[0] == s.heap[0];
  }

  /** And one in which a message meant for the replaced phone is sent to the new one. */
  lemma LateSendCrosses(w: World, k1: KeyPair, k2: KeyPair, name: string, version: string,
                        m: Bytes, frame: Bytes, medium: Medium)
    requires var u := Unwrap(w.suite, FreshPairing(k2, name, version), frame);
             u.Installed? && |u.key| == 32 && |k2.secretKey| == 32
    ensures Run(w, [Pair(Some(k1), name, version)] + [Pair(Some(k2), name, version)]
                   + [Send(0, m, true)] + [Inbound(1, frame, medium)]).wire == [Handed(1, Offer(0, m))]
  {
    var es := [Pair(Some(k1), name, version)] + [Pair(Some(k2), name, version)];
    var s := PairedTwice(k1, k2, name, version);
    PairTwice(w, k1, k2, name, version);
    RunSnoc(w, Init, es, Send(0, m, true));
    RunSnoc(w, Init, es + [Send(0, m, true)], Inbound(1, frame, medium));
    CrossingSteps(w, k1, k2, name, version, m, frame, medium);
  }

  lemma CrossingSteps(w: World, k1: KeyPair, k2: KeyPair, name: string, version: string,
                      m: Bytes, frame: Bytes, medium: Medium)
    requires var u := Unwrap(w.suite, FreshPairing(k2, name, version), frame);
             u.Installed? && |u.key| == 32 && |k2.secretKey| == 32
    ensures Step(w, Step(w, PairedTwice(k1, k2, name, version), Send(0, m, true)), Inbound(1, frame, medium)).wire
            == [Handed(1, Offer(0, m))]
  {
    var s := PairedTwice(k1, k2, name, version);
    var t := Sent(s, 0, m, true);
    assert t == s.(queue := [Offer(0, m)]);
    KeyFlushes(w, t, 1, frame, medium);
    assert Batch(1, [Offer(0, m)]) == [Handed(1, Offer(0, m))];
  }

  /** A usable key takes whatever is queued, whoever queued it. */
  lemma KeyFlushes(w: World, s: State, ps: nat, frame: Bytes, medium: Medium)
    requires ps < |s.heap| && Unwrap(w.suite, s.heap[ps], frame).Installed?
    requires |Unwrap(w.suite, s.heap[ps], frame).key| == 32 && |s.heap[ps].workstationSecretKey| == 32
    ensures Inbounded(w, s, ps, frame, medium).wire == s.wire + Batch(ps, s.queue)
  {
    var p := s.heap[ps].(enclavePublicKey := Some(Unwrap(w.suite, s.heap[ps], frame).key));
    AllHandedOverIs(s.(heap := s.heap[ps := p], queue := [], disk := Some(ToPersisted(p))), ps, s.queue);
  }

  /** An event that neither starts a new pairing or process nor takes the queue for a late key. */
  predicate KeepsPairing(w: World, s: State, e: Event) {
    && !e.Restart?
    && (e.Pair? ==> e.keys == None)
    && !InstallsLate(w, s, e) && !Finishes(s, e, Fresh)
  }

  lemma StrandedStep(w: World, s: State, e: Event)
    requires s.current == None || HasKey(s)
    requires KeepsPairing(w, s, e)
    ensures var t := Step(w, s, e); s.queue <= t.queue && (t.current == None || HasKey(t))
  {
    if !TouchesQueue(e) {
      OtherStepFrame(w, s, e);
    } else if e.Inbound? && e.ps < |s.heap| {
      match Unwrap(w.suite, s.heap[e.ps], e.frame)
      case Ciphertext(c) =>
        var m := DecryptMessage(w.suite, s.heap[e.ps], c);
        if m.Ok? && w.decode(m.value).Some? { HandledFrame(s, e.ps, w.decode(m.value).value, e.medium); }
      case _ =>
    }
  }

  ghost predicate KeepsPairingThroughout(w: World, s: State, events: seq<Event>)
    decreases |events|
  {
    events == [] ||
    var n := |events| - 1;
    KeepsPairingThroughout(w, s, events[..n]) && KeepsPairing(w, RunFrom(w, s, events[..n]), events[n])
  }

  /**
   A stranded message stays queued, whatever else happens, until a new pairing or a restart
   discards it or a late key takes it.
   */
  lemma {:induction false} StrandedForever(w: World, s: State, events: seq<Event>)
    requires s.current == None || HasKey(s)
    requires KeepsPairingThroughout(w, s, events)
    ensures var t := RunFrom(w, s, events); s.queue <= t.queue && (t.current == None || HasKey(t))
    decreases |events|
  {
    if events != [] {
      var n := |events| - 1;
      StrandedForever(w, s, events[..n]);
      StrandedStep(w, RunFrom(w, s, events[..n]), events[n]);
    }
  }

  /**
   A key frame finished for a pairing read earlier keeps the stored copy right exactly
   when that pairing is still current. Otherwise the replaced pairing is stored, and what
   was queued for the new one is handed over under the replaced one.
   */
  lemma LateKeyMirrorsIff(w: World, s: State, ps: nat, frame: Bytes, medium: Medium)
    requires Mirrored(s) && ps < |s.heap| && Unwrap(w.suite, s.heap[ps], frame).Installed?
    requires s.current.Some? && s.current.value != ps ==> !Equals(s.heap[s.current.value], s.heap[ps])
    ensures Mirrored(Inbounded(w, s, ps, frame, medium)) <==> s.current == Some(ps)
    ensures Inbounded(w, s, ps, frame, medium).disk ==
            Some(ToPersisted(s.heap[ps].(enclavePublicKey := Some(Unwrap(w.suite, s.heap[ps], frame).key))))
    ensures var t := Inbounded(w, s, ps, frame, medium);
            && ps < |t.heap| && t.queue == []
            && t.wire == if Ready(t.heap[ps]) then s.wire + Batch(ps, s.queue) else s.wire
  {
    var p := s.heap[ps].(enclavePublicKey := Some(Unwrap(w.suite, s.heap[ps], frame).key));
    AllHandedOverIs(s.(heap := s.heap[ps := p], queue := [], disk := Some(ToPersisted(p))), ps, s.queue);
  }

  /** The reachable case: pair twice, and then the key frame that was read before the second pairing is finished. */
  lemma LateKeyRun(w: World, k1: KeyPair, k2: KeyPair, name: string, version: string, frame: Bytes, medium: Medium)
    requires k1.publicKey != k2.publicKey
    requires Unwrap(w.suite, FreshPairing(k1, name, version), frame).Installed?
    ensures var es := [Pair(Some(k1), name, version)] + [Pair(Some(k2), name, version)];
            && Mirrored(Run(w, es)) && !Mirrored(Run(w, es + [Inbound(0, frame, medium)]))
            && Run(w, es + [Inbound(0, frame, medium)]).disk.Some?
            && Run(w, es + [Inbound(0, frame, medium)]).disk.value.workstationPublicKey == k1.publicKey
  {
    var es := [Pair(Some(k1), name, version)] + [Pair(Some(k2), name, version)];
    PairTwice(w, k1, k2, name, version);
    RunSnoc(w, Init, es, Inbound(0, frame, medium));
    LateKeyMirrorsIff(w, PairedTwice(k1, k2, name, version), 0, frame, medium);
  }

  /** A reply, or a frame that installs no key, for a pairing other than the current one. */
  predicate Stale(w: World, s: State, e: Event) {
    && (e.Deliver? || e.Inbound?)
    && (e.ps < |s.heap| && s.current.Some? ==>
          s.current.value < |s.heap| && !Equals(s.heap[s.current.value], s.heap[e.ps]))
    && !Installs(w, s, e)
  }

  ghost predicate SamePairing(s: State, t: State) {
    && t.heap == s.heap && t.current == s.current && t.disk == s.disk
    && t.me == s.me && t.diskMe == s.diskMe && t.queue == s.queue && t.wire == s.wire && t.finishing == s.finishing
  }

  lemma StaleHandled(s: State, ps: nat, r: Response, medium: Medium)
    requires ps < |s.heap|
    requires s.current.Some? ==> s.current.value < |s.heap| && !Equals(s.heap[s.current.value], s.heap[ps])
    ensures SamePairing(s, Handled(s, ps, r, medium))
  {
  }

  /**
   However many unpair, ARN, tracking or other replies arrive for replaced
   pairings, the current pairing, its stored copy, the cached profile, the queue and
   the transport are untouched. The callback table is not: see StaleUnpairCancelsRequests.
   */
  lemma {:induction false} StaleTrafficSparesPairing(w: World, s: State, events: seq<Event>)
    requires forall i :: 0 <= i < |events| ==> Stale(w, s, events[i])
    ensures SamePairing(s, RunFrom(w, s, events))
    decreases |events|
  {
    if events != [] {
      var n := |events| - 1;
      StaleTrafficSparesPairing(w, s, events[..n]);
      var t := RunFrom(w, s, events[..n]);
      assert Stale(w, s, events[n]);
      match events[n]
      case Deliver(ps, r, medium) => if ps < |t.heap| { StaleHandled(t, ps, r, medium); }
      case Inbound(ps, frame, medium) =>
        if ps < |t.heap| {
          match Unwrap(w.suite, t.heap[ps], frame) {
            case Ciphertext(c) =>
              var m := DecryptMessage(w.suite, t.heap[ps], c);
              if m.Ok? && w.decode(m.value).Some? { StaleHandled(t, ps, w.decode(m.value).value, medium); }
            case _ =>
          }
        }
    }
  }

  /** An unpair from a replaced pairing spares the new pairing but cancels every request that waits under it. */
  lemma StaleUnpairCancelsRequests(w: World, events: seq<Event>, ps: nat, r: Response, medium: Medium, ch: nat)
    requires ps < |Run(w, events).heap| && r.unpair && Stale(w, Run(w, events), Deliver(ps, r, medium))
    requires EnclaveChannels.Pending(Run(w, events), ch)
    ensures var s := Run(w, events);
            var t := Handled(s, ps, r, medium);
            && SamePairing(s, t) && t.callbacks == []
            && ch < |s.sent| && ch < |t.sent| && t.sent[ch] == s.sent[ch] + [Nil]
  {
    var s := Run(w, events);
    EnclaveChannels.RunKeepsChannels(w, Init, events);
    assert Lru.Entry(s.owner[ch], ch) in s.callbacks;
    StaleHandled(s, ps, r, medium);
    EnclaveChannels.UnpairCancelsAll(s, ps, r, medium, ch);
  }

  /** The state after pairing and installing a key, with nothing saved yet. */
  lemma KeyLostSteps(w: World, kp: KeyPair, name: string, version: string, frame: Bytes)
    requires Unwrap(w.suite, FreshPairing(kp, name, version), frame).Installed?
    ensures var s := KeyBegun(w, Paired(Init, Some(kp), name, version), 0, frame);
            var t := Restarted(s);
            && HasKey(s) && !Mirrored(s)
            && t.current.Some? && t.current.value < |t.heap| && !HasKey(t) && Mirrored(t)
  {
    var p := FreshPairing(kp, name, version);
    var s1 := Paired(Init, Some(kp), name, version);
    assert s1.heap == [p] && s1.disk == Some(ToPersisted(p));
  }

  lemma PairThen(w: World, kp: KeyPair, name: string, version: string, e: Event)
    ensures Run(w, [Pair(Some(kp), name, version)] + [e]) == Step(w, Paired(Init, Some(kp), name, version), e)
  {
    var e1 := Pair(Some(kp), name, version);
    LeadsOne(w, Init, e1);
    assert RunFrom(w, Init, [e1]) == Paired(Init, Some(kp), name, version);
    RunSnoc(w, Init, [e1], e);
  }

  /** A run in which the key is lost: the process dies between installing it and saving it. */
  lemma CrashLosesKey(w: World, kp: KeyPair, name: string, version: string, frame: Bytes)
    requires Unwrap(w.suite, FreshPairing(kp, name, version), frame).Installed?
    ensures var es := [Pair(Some(kp), name, version)] + [KeyBegin(0, frame)];
            var s, t := Run(w, es), Run(w, es + [Restart]);
            && HasKey(s) && !Mirrored(s)
            && t.current.Some? && t.current.value < |t.heap| && !HasKey(t) && Mirrored(t)
  {
    KeyLostSteps(w, kp, name, version, frame);
    PairThen(w, kp, name, version, KeyBegin(0, frame));
    RunSnoc(w, Init, [Pair(Some(kp), name, version)] + [KeyBegin(0, frame)], Restart);
    assert Paired(Init, Some(kp), name, version).heap == [FreshPairing(kp, name, version)];
  }
}
