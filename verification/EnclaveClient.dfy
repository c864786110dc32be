/**
 krd's enclave client as an object: each method is a critical section, or a
 goroutine body made of them, and is proved to do what the corresponding step of
 `Enclave` does. The laws proved over runs of steps therefore hold of it.
 */
module EnclaveClient {
  import opened Basics
  import opened Crypto
  import opened Pairing
  import opened Enclave
  import opened EnclaveChannels
  import opened EnclaveEffects
  import EnclaveQueue
  import Lru

  datatype SendFailure = SendQueued | SendError | RecvError | ProtoError

  /** Why a frame was not handled, or why the last message queued behind its key was not sent. */
  datatype FrameError =
    | NeverPaired
    | BadFrame(reason: PairingError)
    | Undecryptable(reason: PairingError)
    | Undecodable
    | Unsent(failure: SendFailure)

  /** What handleCiphertext returns for the pairing `p` that it read; None is success. */
  function FrameVerdict(w: World, p: Pairing, queue: seq<Offer>, frame: Bytes, transportOk: bool): Option<FrameError> {
    match Unwrap(w.suite, p, frame)
    case Failed(e) => Some(BadFrame(e))
    case Ignored => None
    case Installed(key) =>
      if queue == [] || (transportOk && Ready(p.(enclavePublicKey := Some(key)))) then None else Some(Unsent(SendError))
    case Ciphertext(c) =>
      match DecryptMessage(w.suite, p, c)
      case Err(e) => Some(Undecryptable(e))
      case Ok(m) => if w.decode(m) == None then Some(Undecodable) else None
  }

  /**
   Which frames are refused, and why, by their first byte; a refused frame changes nothing. A
   key that opens is an error only if queued messages could not be sent under it.
   */
  lemma RefusedFrames(w: World, s: State, ps: nat, frame: Bytes, medium: Medium, transportOk: bool)
    requires ps < |s.heap|
    ensures var p, v := s.heap[ps], FrameVerdict(w, s.heap[ps], s.queue, frame, transportOk);
            && (frame == [] ==> v == Some(BadFrame(EmptyCiphertext)))
            && (frame != [] && frame[0] == 1 ==> v == Some(BadFrame(WrappedKeyUnsupported)))
            && (frame != [] && frame[0] > 2 ==> v == Some(BadFrame(UnknownHeader)))
            && (frame != [] && frame[0] == 2 && p.enclavePublicKey.Some? ==> v == None)
            && (frame != [] && frame[0] == 2 && p.enclavePublicKey == None && Opens(w.suite, p, frame) == None ==>
                  v.Some? && v.value.BadFrame?)
            && (frame != [] && frame[0] == 0 ==>
                  var m := DecryptMessage(w.suite, p, frame[1..]);
                  && (m.Err? ==> v == Some(Undecryptable(m.error)))
                  && (m.Ok? ==> v == if w.decode(m.value) == None then Some(Undecodable) else None))
            && (frame != [] && frame[0] == 2 && p.enclavePublicKey == None && Opens(w.suite, p, frame).Some? ==>
                  var usable := |Opens(w.suite, p, frame).value| == 32 && |p.workstationSecretKey| == 32;
                  v == if s.queue == [] || (usable && transportOk) then None else Some(Unsent(SendError)))
            && v != Some(NeverPaired)
            && (v.Some? && !v.value.Unsent? ==> Inbounded(w, s, ps, frame, medium) == s)
            && (frame != [] && frame[0] == 2 && p.enclavePublicKey.Some? ==> Inbounded(w, s, ps, frame, medium) == s)
  {
    FrameKinds(w.suite, s.heap[ps], frame);
  }

  // ---------- time ----------

  /** What other goroutines do, and when, until this one holds the lock again at time `at`. */
  datatype Leg = Leg(events: seq<Event>, times: seq<int>, at: int)

  /** One turn of the poll loop: it looks at its tables after `poll`; if it then gives up, it does so after `close`. */
  datatype Round = Round(poll: Leg, close: Leg)

  ghost predicate Ascending(times: seq<int>) {
    forall i, j :: 0 <= i <= j < |times| ==> times[i] <= times[j]
  }

  ghost predicate LegFrom(leg: Leg, from: int) {
    && |leg.times| == |leg.events| && NoRestart(leg.events)
    && from <= leg.at && Ascending(leg.times)
    && forall i :: 0 <= i < |leg.times| ==> from <= leg.times[i] <= leg.at
  }

  /** The rounds follow one another in time, from `from` on. */
  ghost predicate ScriptFrom(script: seq<Round>, from: int) {
    forall k :: 0 <= k < |script| ==> RoundFrom(script[k], LookedBefore(script, from, k))
  }

  ghost predicate RoundFrom(round: Round, from: int) {
    LegFrom(round.poll, from) && LegFrom(round.close, round.poll.at)
  }

  /** The process lives through all rounds. */
  ghost predicate AllLive(script: seq<Round>) {
    forall k :: 0 <= k < |script| ==> NoRestart(script[k].poll.events) && NoRestart(script[k].close.events)
  }

  lemma ScriptIsLive(script: seq<Round>, from: int)
    requires ScriptFrom(script, from)
    ensures AllLive(script)
  {
    forall k | 0 <= k < |script| ensures NoRestart(script[k].poll.events) && NoRestart(script[k].close.events) {
      assert RoundFrom(script[k], LookedBefore(script, from, k));
    }
  }

  /** When round `k` begins: where the round before it ended. */
  ghost function LookedBefore(script: seq<Round>, from: int, k: nat): int
    requires k <= |script|
  {
    if k == 0 then from else script[k - 1].poll.at
  }

  /** Every step of `trace` has its time, none later than `now`. */
  ghost predicate Stamped(trace: seq<Event>, times: seq<int>, now: int) {
    |times| == |trace| && Ascending(times) && forall i :: 0 <= i < |times| ==> times[i] <= now
  }

  /** What the poll loop and its surroundings do in the first `n` rounds. */
  ghost function PollTrace(id: RequestId, script: seq<Round>, n: nat): seq<Event>
    requires n <= |script|
  {
    if n == 0 then [] else PollTrace(id, script, n - 1) + (script[n - 1].poll.events + [Event.Poll(id)])
  }

  ghost function PollTimes(script: seq<Round>, n: nat): seq<int>
    requires n <= |script|
  {
    if n == 0 then [] else PollTimes(script, n - 1) + (script[n - 1].poll.times + [script[n - 1].poll.at])
  }

  /** A request from its registration to the give-up after round `last`, everything in between included. */
  ghost function RequestTrace(id: RequestId, send: Send, between: Leg, during: Leg, script: seq<Round>, last: nat): seq<Event>
    requires last < |script|
  {
    SendTrace(id, send, between.events, during.events) + PollTrace(id, script, last + 1)
    + (script[last].close.events + [Event.GiveUp(id)])
  }

  ghost function RequestTimes(registeredAt: int, between: Leg, during: Leg, script: seq<Round>, last: nat): seq<int>
    requires last < |script|
  {
    [registeredAt] + (between.times + [between.at]) + (during.times + [during.at]) + PollTimes(script, last + 1)
    + (script[last].close.times + [script[last].close.at])
  }

  /** The client's own send: its two halves, the second of which finds its sender at place `k`. */
  datatype Send = Send(ps: nat, message: Bytes, k: nat)

  ghost function SendTrace(id: RequestId, send: Send, between: seq<Event>, during: seq<Event>): seq<Event> {
    [Event.Register(id)] + (between + [Event.SendBegin(send.ps, send.message, true)]) + (during + [Event.SendEnd(send.k)])
  }

  lemma {:induction false} PollStamped(id: RequestId, script: seq<Round>, n: nat, before: seq<Event>, times: seq<int>, now: int)
    requires n <= |script| && Stamped(before, times, now) && ScriptFrom(script, now)
    ensures Stamped(before + PollTrace(id, script, n), times + PollTimes(script, n), LookedBefore(script, now, n))
  {
    if n == 0 {
      assert before + [] == before && times + [] == times;
    } else {
      var leg := script[n - 1].poll;
      PollStamped(id, script, n - 1, before, times, now);
      assert RoundFrom(script[n - 1], LookedBefore(script, now, n - 1));
      StampMore(before, PollTrace(id, script, n - 1), times, PollTimes(script, n - 1), LookedBefore(script, now, n - 1),
                leg, Event.Poll(id));
    }
  }

  lemma StampMore(before: seq<Event>, polls: seq<Event>, times: seq<int>, pollTimes: seq<int>, now: int, leg: Leg, e: Event)
    requires Stamped(before + polls, times + pollTimes, now) && LegFrom(leg, now)
    ensures Stamped(before + (polls + (leg.events + [e])), times + (pollTimes + (leg.times + [leg.at])), leg.at)
  {
    var es, ts := leg.events + [e], leg.times + [leg.at];
    StampLeg(before + polls, times + pollTimes, now, leg, e);
    assert before + polls + es == before + (polls + es) && times + pollTimes + ts == times + (pollTimes + ts);
  }

  /** The steps of a request are in order of time, and the last of them is the give-up. */
  lemma RequestStamped(id: RequestId, send: Send, registeredAt: int, between: Leg, during: Leg, script: seq<Round>, last: nat)
    requires last < |script| && LegFrom(between, registeredAt) && LegFrom(during, between.at) && ScriptFrom(script, during.at)
    ensures Stamped(RequestTrace(id, send, between, during, script, last),
                    RequestTimes(registeredAt, between, during, script, last), script[last].close.at)
  {
    var trace := SendTrace(id, send, between.events, during.events);
    var times := [registeredAt] + (between.times + [between.at]) + (during.times + [during.at]);
    SendStamped(id, send, registeredAt, between, during);
    PollStamped(id, script, last + 1, trace, times, during.at);
    assert RoundFrom(script[last], LookedBefore(script, during.at, last));
    StampLeg(trace + PollTrace(id, script, last + 1), times + PollTimes(script, last + 1), script[last].poll.at,
             script[last].close, Event.GiveUp(id));
  }

  lemma SendStamped(id: RequestId, send: Send, registeredAt: int, between: Leg, during: Leg)
    requires LegFrom(between, registeredAt) && LegFrom(during, between.at)
    ensures Stamped(SendTrace(id, send, between.events, during.events),
                    [registeredAt] + (between.times + [between.at]) + (during.times + [during.at]), during.at)
  {
    var begin := Event.SendBegin(send.ps, send.message, true);
    StampLeg([Event.Register(id)], [registeredAt], registeredAt, between, begin);
    StampLeg([Event.Register(id)] + (between.events + [begin]), [registeredAt] + (between.times + [between.at]), between.at,
             during, Event.SendEnd(send.k));
  }

  lemma StampLeg(trace: seq<Event>, times: seq<int>, now: int, leg: Leg, e: Event)
    requires Stamped(trace, times, now) && LegFrom(leg, now)
    ensures Stamped(trace + (leg.events + [e]), times + (leg.times + [leg.at]), leg.at)
  {
    var all := times + (leg.times + [leg.at]);
    forall i, j | 0 <= i <= j < |all| ensures all[i] <= all[j] {
      if i < |times| <= j { assert times[i] <= now; }
    }
  }

  lemma StepGrows(w: World, s: State, e: Event)
    requires !e.Restart?
    ensures s.owner <= Step(w, s, e).owner && |s.heap| <= |Step(w, s, e).heap|
  {
    if !TouchesChannels(e) {
      OtherStep(w, s, e);
      OtherStepHeap(w, s, e);
    } else if IsReceipt(e) {
      ReceiptKeepsOwners(w, s, e);
    }
  }

  lemma OtherStepHeap(w: World, s: State, e: Event)
    requires !TouchesChannels(e)
    ensures |s.heap| <= |Step(w, s, e).heap|
  {
  }

  lemma ReceiptKeepsOwners(w: World, s: State, e: Event)
    requires IsReceipt(e)
    ensures Step(w, s, e).owner == s.owner && |Step(w, s, e).heap| == |s.heap|
  {
    var t := Step(w, s, e);
    if e.ps >= |s.heap| {
      assert t == s;
    } else if e.Inbound? {
      assert t == Inbounded(w, s, e.ps, e.frame, e.medium);
      InboundKeepsOwners(w, s, e.ps, e.frame, e.medium);
    } else {
      assert t == Handled(s, e.ps, e.response, e.medium);
      HandledKeepsOwners(s, e.ps, e.response, e.medium);
    }
  }

  lemma HandledKeepsOwners(s: State, ps: nat, r: Response, medium: Medium)
    requires ps < |s.heap|
    ensures Handled(s, ps, r, medium).owner == s.owner && |Handled(s, ps, r, medium).heap| == |s.heap|
  {
  }

  lemma InboundKeepsOwners(w: World, s: State, ps: nat, frame: Bytes, medium: Medium)
    requires ps < |s.heap|
    ensures Inbounded(w, s, ps, frame, medium).owner == s.owner && |Inbounded(w, s, ps, frame, medium).heap| == |s.heap|
  {
    match Unwrap(w.suite, s.heap[ps], frame)
    case Installed(key) =>
      var p := s.heap[ps].(enclavePublicKey := Some(key));
      AllHandedOverIs(s.(heap := s.heap[ps := p], queue := [], disk := Some(ToPersisted(p))), ps, s.queue);
    case Ciphertext(c) =>
      var m := DecryptMessage(w.suite, s.heap[ps], c);
      if m.Ok? && w.decode(m.value).Some? {
        HandledKeepsOwners(s, ps, w.decode(m.value).value, medium);
      }
    case _ =>
  }

  /** A look at time `at` finds the request pending and its time not over: an ACK prolongs it. */
  ghost predicate GoesOn(s: State, id: RequestId, at: int, timeoutAt: int, ackDelay: nat) {
    Lru.Has(s.callbacks, id) && at <= if Lru.Has(s.acked, id) then timeoutAt + ackDelay else timeoutAt
  }

  /** The look at the end of round `k` found that the poll loop has to go on. */
  ghost predicate WentOn(w: World, start: State, before: seq<Event>, id: RequestId, script: seq<Round>, k: nat,
                         timeoutAt: int, ackDelay: nat)
    requires k < |script|
  {
    && script[k].poll.at <= timeoutAt + ackDelay
    && forall s :: Leads(w, start, before + PollTrace(id, script, k + 1), s) ==>
         GoesOn(s, id, script[k].poll.at, timeoutAt, ackDelay)
  }

  /** The look at the end of round `k` found the request gone or its time over. */
  ghost predicate Stopped(w: World, start: State, before: seq<Event>, id: RequestId, script: seq<Round>, k: nat,
                          timeoutAt: int, ackDelay: nat)
    requires k < |script|
  {
    forall s :: Leads(w, start, before + PollTrace(id, script, k + 1), s) ==>
      !GoesOn(s, id, script[k].poll.at, timeoutAt, ackDelay)
  }

  /** Every round but the last had to go on, and the last had not. */
  ghost predicate PolledThrough(w: World, start: State, before: seq<Event>, id: RequestId, script: seq<Round>, last: nat,
                                timeoutAt: int, ackDelay: nat)
    requires last < |script|
  {
    && (forall k :: 0 <= k < last ==> WentOn(w, start, before, id, script, k, timeoutAt, ackDelay))
    && Stopped(w, start, before, id, script, last, timeoutAt, ackDelay)
  }

  lemma LeadsOnlyTo(w: World, start: State, trace: seq<Event>, s: State, t: State)
    requires Leads(w, start, trace, s) && Leads(w, start, trace, t)
    ensures s == t
  {
    assert RunFrom(w, start, trace) == s;
  }

  lemma LookedOnce(w: World, start: State, before: seq<Event>, id: RequestId, script: seq<Round>, k: nat,
                   timeoutAt: int, ackDelay: nat, t: State)
    requires k < |script| && Leads(w, start, before + PollTrace(id, script, k + 1), t)
    ensures if GoesOn(t, id, script[k].poll.at, timeoutAt, ackDelay)
            then WentOn(w, start, before, id, script, k, timeoutAt, ackDelay)
            else Stopped(w, start, before, id, script, k, timeoutAt, ackDelay)
  {
    var trace := before + PollTrace(id, script, k + 1);
    forall s | Leads(w, start, trace, s) ensures s == t { LeadsOnlyTo(w, start, trace, s, t); }
  }

  /** An acknowledged request that is still pending is not given up before its prolonged time is over. */
  lemma AckProlongs(w: World, start: State, before: seq<Event>, id: RequestId, script: seq<Round>, last: nat,
                    timeoutAt: int, ackDelay: nat, s: State)
    requires last < |script| && PolledThrough(w, start, before, id, script, last, timeoutAt, ackDelay)
    requires Leads(w, start, before + PollTrace(id, script, last + 1), s)
    ensures Lru.Has(s.callbacks, id) && Lru.Has(s.acked, id) ==> script[last].poll.at > timeoutAt + ackDelay
    ensures Lru.Has(s.callbacks, id) ==> script[last].poll.at > timeoutAt
  {
    assert !GoesOn(s, id, script[last].poll.at, timeoutAt, ackDelay);
  }

  /** After `trace`, pairing `ps` still awaits its key, or not. */
  ghost predicate Awaits(w: World, start: State, trace: seq<Event>, ps: nat, awaits: bool) {
    forall s :: Leads(w, start, trace, s) ==> ps < |s.heap| && (s.heap[ps].enclavePublicKey == None <==> awaits)
  }

  /** After `trace`, place `k` is where `mine` waits, if it does; and no sender's if there is none to look for. */
  ghost predicate FoundAt(w: World, start: State, trace: seq<Event>, mine: Option<Sender>, k: nat) {
    forall s :: Leads(w, start, trace, s) ==>
      && (mine == None ==> k >= |s.waiting|)
      && (mine.Some? && mine.value in s.waiting ==> k < |s.waiting| && s.waiting[k] == mine.value)
  }

  /**
   The client's own send is completed: if its first half finds the key missing, its second
   half enqueues what that left waiting; if it finds the key, there is nothing left to do.
   */
  ghost predicate Completed(w: World, start: State, id: RequestId, send: Send, between: seq<Event>, during: seq<Event>) {
    var begin := Event.SendBegin(send.ps, send.message, true);
    exists awaits ::
      && Awaits(w, start, [Event.Register(id)] + between, send.ps, awaits)
      && FoundAt(w, start, [Event.Register(id)] + (between + [begin]) + during,
                 if awaits then Some(Sender(Offer(send.ps, send.message), true)) else None, send.k)
  }

  lemma AwaitsIs(w: World, start: State, trace: seq<Event>, ps: nat, s: State)
    requires Leads(w, start, trace, s) && ps < |s.heap|
    ensures Awaits(w, start, trace, ps, s.heap[ps].enclavePublicKey == None)
  {
    forall t | Leads(w, start, trace, t) ensures t == s { LeadsOnlyTo(w, start, trace, s, t); }
  }

  lemma FoundIs(w: World, start: State, trace: seq<Event>, mine: Option<Sender>, k: nat, s: State)
    requires Leads(w, start, trace, s)
    requires mine == None ==> k >= |s.waiting|
    requires mine.Some? && mine.value in s.waiting ==> k < |s.waiting| && s.waiting[k] == mine.value
    ensures FoundAt(w, start, trace, mine, k)
  {
    forall t | Leads(w, start, trace, t) ensures t == s { LeadsOnlyTo(w, start, trace, s, t); }
  }

  /** The steps of a request that are its own: it registers first, then sends in two halves, polls, and gives up last. */
  lemma OwnSteps(id: RequestId, send: Send, between: Leg, during: Leg, script: seq<Round>, last: nat)
    requires last < |script|
    ensures var trace := RequestTrace(id, send, between, during, script, last);
            var n, m := |between.events|, |during.events|;
            && |trace| > n + m + 3
            && trace[0] == Event.Register(id)
            && trace[n + 1] == Event.SendBegin(send.ps, send.message, true)
            && trace[n + m + 2] == Event.SendEnd(send.k)
            && trace[|trace| - 1] == Event.GiveUp(id)
            && (forall k :: 0 <= k <= last ==> PollAt(script, k) < |PollTrace(id, script, last + 1)|
                                               && trace[n + m + 3 + PollAt(script, k)] == Event.Poll(id))
  {
    var polls := PollTrace(id, script, last + 1);
    var front, close := SendTrace(id, send, between.events, during.events), script[last].close.events + [Event.GiveUp(id)];
    var trace := RequestTrace(id, send, between, during, script, last);
    assert trace == front + polls + close;
    SendSteps(id, send, between.events, during.events);
    assert forall i :: 0 <= i < |front| ==> trace[i] == front[i];
    assert trace[|trace| - 1] == close[|close| - 1];
    forall k | 0 <= k <= last
      ensures PollAt(script, k) < |polls| && trace[|front| + PollAt(script, k)] == Event.Poll(id)
    {
      PollSteps(id, script, last + 1, k);
      assert trace[|front| + PollAt(script, k)] == polls[PollAt(script, k)];
    }
  }

  lemma SendSteps(id: RequestId, send: Send, between: seq<Event>, during: seq<Event>)
    ensures var trace := SendTrace(id, send, between, during);
            var n, m := |between|, |during|;
            && |trace| == n + m + 3 && trace[0] == Event.Register(id)
            && trace[n + 1] == Event.SendBegin(send.ps, send.message, true) && trace[n + m + 2] == Event.SendEnd(send.k)
  {
  }

  /** Where the look of round `k` stands among the steps of the poll loop. */
  ghost function PollAt(script: seq<Round>, k: nat): (i: nat)
    requires k < |script|
  {
    |script[k].poll.events| + if k == 0 then 0 else PollAt(script, k - 1) + 1
  }

  lemma {:induction false} PollSteps(id: RequestId, script: seq<Round>, n: nat, k: nat)
    requires k < n <= |script|
    ensures |PollTrace(id, script, n)| == PollAt(script, n - 1) + 1
    ensures PollAt(script, k) < |PollTrace(id, script, n)| && PollTrace(id, script, n)[PollAt(script, k)] == Event.Poll(id)
  {
    var turn := script[n - 1].poll.events + [Event.Poll(id)];
    if n > 1 { PollSteps(id, script, n - 1, if k < n - 1 then k else n - 2); }
    if k == n - 1 { assert turn[|turn| - 1] == Event.Poll(id); }
  }

  lemma GivesUpAtEnd(w: World, s0: State, before: seq<Event>, late: seq<Event>, s: State, id: RequestId, ch: nat)
    requires Leads(w, s0, before + late, s)
    requires ch < |s.sent| && ch < |s.owner| && s.owner[ch] == id
    ensures GivesUpAt(w, s0, before + (late + [Event.GiveUp(id)]), |before| + |late|, id, ch)
  {
    var all := before + (late + [Event.GiveUp(id)]);
    assert all[..|before| + |late|] == before + late && all[|before| + |late| + 1..] == [];
    assert RunFrom(w, s0, before + late) == s;
  }

  class EnclaveClient {
    const world: World
    const ackDelay: nat

    var heap: seq<Pairing>
    var current: Option<nat>
    var disk: Option<PersistedPairing>
    var me: Option<Profile>
    var diskMe: Option<Profile>
    var callbacks: Lru.Cache<RequestId, nat>
    var acked: Lru.Cache<RequestId, ()>
    var queue: seq<Offer>
    var waiting: seq<Sender>
    var finishing: seq<Finisher>
    var sent: seq<seq<Item>>
    var owner: seq<RequestId>
    var taken: seq<nat>
    var displaced: set<nat>
    var wire: seq<Handed>

    ghost function View(): State
      reads this
    {
      State(heap, current, disk, me, diskMe, callbacks, acked, queue, waiting, finishing, sent, owner, taken, displaced, wire)
    }

    ghost predicate Valid()
      reads this
    {
      ChannelInv(View())
    }

    /** Channel `ch` has nothing more to expect: it got its terminal item or was pushed out of the table. */
    ghost predicate Answerless(ch: nat)
      reads this
    {
      ch < |sent| && (Closed(sent[ch]) || ch in displaced)
    }

    constructor (world: World, ackDelay: nat)
      ensures this.world == world && this.ackDelay == ackDelay
      ensures Valid() && View() == Init
    {
      this.world, this.ackDelay := world, ackDelay;
      heap, current, disk, me, diskMe := [], None, None, None, None;
      callbacks, acked, queue, waiting, finishing := [], [], [], [], [];
      sent, owner, taken, displaced, wire := [], [], [], {}, [];
    }

    method Unpair(ps: nat)
      requires ps < |heap|
      modifies this`current, this`disk, this`me, this`diskMe
      ensures View() == Unpaired(old(View()), ps) && UnpairEffect(old(View()), View(), ps)
      ensures EnclaveQueue.Mirrored(old(View())) ==> EnclaveQueue.Mirrored(View())
    {
      if current == None || current.value >= |heap| || !Equals(heap[current.value], heap[ps]) {
        return;
      }
      me := None;
      current := None;
      diskMe := None;
      disk := None;
    }

    method UnpairCurrent()
      modifies this`current, this`disk, this`me, this`diskMe
      ensures View() == UnpairedCurrent(old(View()))
      ensures old(current).Some? && old(current).value < |heap| ==> UnpairEffect(old(View()), View(), old(current).value)
    {
      if current.Some? && current.value < |heap| {
        Unpair(current.value);
      }
    }

    method Pair(keys: Option<KeyPair>, name: string, version: string)
      modifies this
      ensures View() == Paired(old(View()), keys, name, version)
      ensures PairEffect(old(View()), View(), keys, name, version)
      ensures EnclaveQueue.Mirrored(old(View())) ==> EnclaveQueue.Mirrored(View())
    {
      PairHasEffect(View(), keys, name, version);
      ghost var t := Paired(View(), keys, name, version);
      MakePairing(keys, name, version);
      assert View() == t;
    }

    method MakePairing(keys: Option<KeyPair>, name: string, version: string)
      modifies this`heap, this`current, this`disk, this`me, this`diskMe, this`queue
      ensures View() == Paired(old(View()), keys, name, version)
    {
      UnpairCurrent();
      diskMe := None;
      disk := None;
      if keys == None {
        return;
      }
      var p := FreshPairing(keys.value, name, version);
      heap := heap + [p];
      current := Some(|heap| - 1);
      queue := [];
      disk := Some(ToPersisted(p));
    }

    method ForgetRequests()
      modifies this`callbacks, this`acked, this`sent, this`owner, this`taken, this`displaced
      ensures callbacks == [] && acked == [] && sent == [] && owner == [] && taken == [] && displaced == {}
    {
      callbacks, acked, sent := [], [], [];
      owner, taken, displaced := [], [], {};
    }

    /** The process dies: only what is stored survives. */
    method Crash()
      modifies this
      ensures View() == Init.(disk := old(disk), diskMe := old(diskMe))
    {
      ForgetRequests();
      heap, current, me := [], None, None;
      queue, waiting, finishing, wire := [], [], [], [];
    }

    /** Load the stored pairing, if there is one, and the stored profile, if it is usable. */
    method Start()
      modifies this`heap, this`current, this`me
      ensures disk.Some? ==> heap == old(heap) + [FromPersisted(disk.value)] && current == Some(|old(heap)|)
      ensures disk == None ==> heap == old(heap) && current == old(current)
      ensures me == if LoadedMe(diskMe).Some? then LoadedMe(diskMe) else old(me)
    {
      if disk.Some? {
        heap := heap + [FromPersisted(disk.value)];
        current := Some(|heap| - 1);
      }
      if LoadedMe(diskMe).Some? {
        me := LoadedMe(diskMe);
      }
    }

    method CrashAndStart()
      modifies this
      ensures View() == Restarted(old(View())) && RestartEffect(old(View()), View())
      ensures EnclaveQueue.Mirrored(View())
    {
      RestartHasEffect(View());
      Crash();
      assert View().heap == [] && View().current == None && View().me == None;
      Start();
    }

    method Register(id: RequestId) returns (ch: nat)
      requires Valid()
      modifies this`callbacks, this`sent, this`owner, this`taken, this`displaced
      ensures View() == Registered(old(View()), id) && ch == |old(sent)|
      ensures RegisterEffect(old(View()), View(), id)
    {
      RegisterHasEffect(View(), id);
      ghost var t := Registered(View(), id);
      ch := AddChannel(id);
      assert View() == t;
    }

    method AddChannel(id: RequestId) returns (ch: nat)
      modifies this`callbacks, this`sent, this`owner, this`taken, this`displaced
      ensures View() == Registered(old(View()), id) && ch == |old(sent)|
    {
      ch := |sent|;
      var out := Lru.Displaced(callbacks, id, TABLE_SIZE);
      if out.Some? {
        displaced := displaced + {out.value};
      }
      callbacks := Lru.Add(callbacks, id, ch, TABLE_SIZE);
      sent := sent + [[]];
      owner := owner + [id];
      taken := taken + [0];
    }

    method GiveUp(id: RequestId)
      requires Valid()
      modifies this
      ensures View() == GivenUp(old(View()), id) && GiveUpEffect(old(View()), View(), id)
      ensures Valid() && !Lru.Has(callbacks, id)
      ensures forall ch :: 0 <= ch < |owner| && owner[ch] == id ==> Answerless(ch)
    {
      Lru.WithoutKeeps(callbacks, id);
      GiveUpKeeps(View(), id);
      GiveUpHasEffect(View(), id);
      var cb := Lru.Lookup(callbacks, id);
      if cb.Some? {
        sent := Put(sent, cb.value, Nil);
        callbacks := Lru.Without(callbacks, id);
      }
    }

    /** The transport may fail; a missing or unusable key fails before it is reached. */
    method SendMessage(ps: nat, message: Bytes, queueable: bool, nonce: Nonce, transportOk: bool)
      returns (err: Option<SendFailure>)
      requires ps < |heap|
      modifies this`queue, this`wire
      ensures View() == Sent(old(View()), ps, message, queueable)
      ensures err == Some(SendQueued) <==> heap[ps].enclavePublicKey == None
      ensures err == None <==> Ready(heap[ps]) && transportOk
      ensures err == None || err == Some(SendQueued) || err == Some(SendError)
    {
      err := Transmit(ps, Offer(ps, message), queueable, nonce, transportOk);
    }

    /** sendMessage, whomever the message was meant for. */
    method Transmit(ps: nat, offer: Offer, queueable: bool, nonce: Nonce, transportOk: bool)
      returns (err: Option<SendFailure>)
      requires ps < |heap|
      modifies this`queue, this`wire
      ensures View() == if heap[ps].enclavePublicKey == None
                        then old(View()).(queue := Enqueued(old(queue), Sender(offer, queueable)))
                        else HandedOver(old(View()), ps, offer)
      ensures err == Some(SendQueued) <==> heap[ps].enclavePublicKey == None
      ensures err == None <==> Ready(heap[ps]) && transportOk
      ensures err == None || err == Some(SendQueued) || err == Some(SendError)
    {
      EncryptOutcome(world.suite, heap[ps], offer.message, nonce);
      var ciphertext := EncryptMessage(world.suite, heap[ps], offer.message, nonce);
      if ciphertext.Err? {
        if ciphertext.error == WaitingForKey {
          if |queue| < QUEUE_SIZE && queueable {
            queue := queue + [offer];
          }
          err := Some(SendQueued);
        } else {
          err := Some(SendError);
        }
        return;
      }
      wire := wire + [Handed(ps, offer)];
      err := if transportOk then None else Some(SendError);
    }

    /** The messages queued while the key was awaited, sent now that it is there. */
    method SendQueuedMessages(ps: nat, messages: seq<Offer>, nonce: Nonce, transportOk: bool)
      returns (err: Option<SendFailure>)
      requires ps < |heap| && heap[ps].enclavePublicKey.Some?
      modifies this`queue, this`wire
      ensures View() == AllHandedOver(old(View()), ps, messages)
      ensures err == if messages == [] || (Ready(heap[ps]) && transportOk) then None else Some(SendError)
    {
      err := None;
      var i := 0;
      assert messages[0..] == messages;
      while i < |messages|
        invariant 0 <= i <= |messages|
        invariant heap == old(heap)
        invariant err == if i == 0 || (Ready(heap[ps]) && transportOk) then None else Some(SendError)
        invariant AllHandedOver(View(), ps, messages[i..]) == AllHandedOver(old(View()), ps, messages)
      {
        assert messages[i..][0] == messages[i] && messages[i..][1..] == messages[i + 1..];
        err := Transmit(ps, messages[i], true, nonce, transportOk);
        i := i + 1;
      }
    }

    method CancelAll()
      modifies this`sent, this`callbacks
      ensures callbacks == [] && sent == Drained(old(sent), old(callbacks))
    {
      while |callbacks| > 0
        invariant Drained(sent, callbacks) == Drained(old(sent), old(callbacks))
        decreases |callbacks|
      {
        var n := |callbacks| - 1;
        var oldest := callbacks[n];
        callbacks := callbacks[..n];
        sent := Put(sent, oldest.value, Nil);
      }
    }

    method Annotate(ps: nat, r: Response)
      requires ps < |heap|
      modifies this`heap, this`disk
      ensures View() == Annotated(old(View()), ps, r) && AnnotateEffect(old(View()), View(), ps, r)
      ensures EnclaveQueue.Mirrored(old(View())) ==> EnclaveQueue.Mirrored(View())
    {
      AnnotateHasEffect(View(), ps, r);
      if EnclaveQueue.Mirrored(View()) { EnclaveQueue.AnnotateMirrors(View(), ps, r); }
      if current == None || current.value >= |heap| || !Equals(heap[current.value], heap[ps]) {
        return;
      }
      var cur := current.value;
      if r.snsEndpointARN.Some? {
        heap := heap[cur := heap[cur].(snsEndpointARN := r.snsEndpointARN)];
        disk := Some(ToPersisted(heap[cur]));
      }
      if r.trackingID.Some? && r.trackingID != heap[cur].trackingID {
        heap := heap[cur := heap[cur].(trackingID := r.trackingID)];
        disk := Some(ToPersisted(heap[cur]));
      }
    }

    method Answer(r: Response, medium: Medium)
      requires Lru.Distinct(callbacks)
      modifies this`sent, this`callbacks, this`acked
      ensures View() == Answered(old(View()), r, medium) && AnswerEffect(old(View()), View(), r, medium)
    {
      AnswerHasEffect(View(), r, medium);
      var cb := Lru.Lookup(callbacks, r.id);
      if cb.Some? {
        callbacks := Lru.Touch(callbacks, r.id);
        sent := Put(sent, cb.value, Reply(r, medium));
      }
      if r.ack {
        acked := Lru.Add(acked, r.id, (), TABLE_SIZE);
      } else {
        callbacks := Lru.Without(callbacks, r.id);
      }
    }

    method HandleMessage(ps: nat, r: Response, medium: Medium)
      requires ps < |heap| && Lru.Distinct(callbacks)
      modifies this
      ensures View() == Handled(old(View()), ps, r, medium) && HandleEffect(old(View()), View(), ps, r, medium)
      ensures EnclaveQueue.Mirrored(old(View())) ==> EnclaveQueue.Mirrored(View())
    {
      HandleHasEffect(View(), ps, r, medium);
      if EnclaveQueue.Mirrored(View()) { EnclaveQueue.HandleMirrors(View(), ps, r, medium); }
      ghost var t := Handled(View(), ps, r, medium);
      if r.unpair {
        Unpair(ps);
        CancelAll();
      } else {
        Annotate(ps, r);
        Answer(r, medium);
      }
      assert View() == t;
    }

    /** handleCiphertext after it read the pairing as `ps`; `nonce` and `transportOk` serve the queued messages. */
    method HandleCiphertextFor(ps: nat, frame: Bytes, medium: Medium, nonce: Nonce, transportOk: bool)
      returns (err: Option<FrameError>)
      requires Valid() && ps < |heap|
      modifies this
      ensures View() == Inbounded(world, old(View()), ps, frame, medium)
      ensures err == FrameVerdict(world, old(heap[ps]), old(queue), frame, transportOk)
    {
      err := None;
      match Unwrap(world.suite, heap[ps], frame)
      case Failed(e) => err := Some(BadFrame(e));
      case Ignored =>
      case Installed(key) => err := InstallKey(ps, key, nonce, transportOk);
      case Ciphertext(c) => err := HandleSealed(ps, c, medium);
    }

    method InstallKey(ps: nat, key: Bytes, nonce: Nonce, transportOk: bool) returns (err: Option<FrameError>)
      requires ps < |heap|
      modifies this`heap, this`queue, this`disk, this`wire
      ensures var p := old(heap[ps]).(enclavePublicKey := Some(key));
              && View() == AllHandedOver(old(View()).(heap := old(heap)[ps := p], queue := [], disk := Some(ToPersisted(p))),
                                         ps, old(queue))
              && err == if old(queue) == [] || (transportOk && Ready(p)) then None else Some(Unsent(SendError))
    {
      heap := heap[ps := heap[ps].(enclavePublicKey := Some(key))];
      var messages := queue;
      queue := [];
      disk := Some(ToPersisted(heap[ps]));
      var unsent := SendQueuedMessages(ps, messages, nonce, transportOk);
      err := if unsent.Some? then Some(Unsent(unsent.value)) else None;
    }

    method HandleSealed(ps: nat, c: Bytes, medium: Medium) returns (err: Option<FrameError>)
      requires Valid() && ps < |heap|
      modifies this
      ensures View() == match DecryptMessage(world.suite, old(heap[ps]), c)
                        case Err(_) => old(View())
                        case Ok(m) => match world.decode(m)
                                      case None => old(View())
                                      case Some(r) => Handled(old(View()), ps, r, medium)
      ensures err == match DecryptMessage(world.suite, old(heap[ps]), c)
                     case Err(e) => Some(Undecryptable(e))
                     case Ok(m) => if world.decode(m) == None then Some(Undecodable) else None
    {
      var m := DecryptMessage(world.suite, heap[ps], c);
      if m.Err? {
        return Some(Undecryptable(m.error));
      }
      var r := world.decode(m.value);
      if r == None {
        return Some(Undecodable);
      }
      HandleMessage(ps, r.value, medium);
      err := None;
    }

    /** The whole of handleCiphertext when nothing runs in between. */
    method HandleCiphertext(frame: Bytes, medium: Medium, nonce: Nonce, transportOk: bool)
      returns (err: Option<FrameError>)
      requires Valid() && (current.Some? ==> current.value < |heap|)
      modifies this
      ensures err == Some(NeverPaired) <==> old(current) == None
      ensures old(current) == None ==> View() == old(View())
      ensures old(current).Some? ==>
                && View() == Step(world, old(View()), Inbound(old(current).value, frame, medium))
                && err == FrameVerdict(world, old(heap[current.value]), old(queue), frame, transportOk)
    {
      if current == None {
        return Some(NeverPaired);
      }
      err := HandleCiphertextFor(current.value, frame, medium, nonce, transportOk);
    }

    /** sendMessage up to where it has found the key missing and dropped the lock. */
    method BeginSend(ps: nat, message: Bytes, queueable: bool, nonce: Nonce, transportOk: bool)
      returns (err: Option<SendFailure>)
      requires ps < |heap|
      modifies this`waiting, this`queue, this`wire
      ensures View() == SendBegun(old(View()), ps, message, queueable)
      ensures err == Some(SendQueued) <==> heap[ps].enclavePublicKey == None
      ensures err == None || err == Some(SendQueued) || err == Some(SendError)
    {
      if heap[ps].enclavePublicKey == None {
        waiting := waiting + [Sender(Offer(ps, message), queueable)];
        err := Some(SendQueued);
      } else {
        err := SendMessage(ps, message, queueable, nonce, transportOk);
      }
    }

    /** sendMessage from where it takes the lock again to enqueue. */
    method EndSend(k: nat)
      requires k < |waiting|
      modifies this`waiting, this`queue
      ensures View() == SendEnded(old(View()), k) && SendEndEffect(old(View()), View(), k)
    {
      SendEndHasEffect(View(), k);
      if |queue| < QUEUE_SIZE && waiting[k].queueable {
        queue := queue + [waiting[k].offer];
      }
      waiting := waiting[..k] + waiting[k + 1..];
    }

    /** The rest of a send that found the key missing, if it did; `k` is where its sender waits. */
    method FinishSend(mine: Option<Sender>) returns (k: nat)
      modifies this`waiting, this`queue
      ensures View() == Step(world, old(View()), SendEnd(k))
      ensures mine == None ==> View() == old(View()) && k == |waiting|
      ensures mine.Some? && mine.value in old(waiting) ==> k < |old(waiting)| && old(waiting)[k] == mine.value
    {
      k := |waiting|;
      if mine.Some? {
        if i :| 0 <= i < |waiting| && waiting[i] == mine.value {
          k := i;
          EndSend(k);
        }
      }
    }

    /** The first region of a key frame, on its own: the key is installed. */
    method BeginKey(ps: nat, frame: Bytes)
      requires ps < |heap|
      modifies this`heap, this`finishing
      ensures View() == KeyBegun(world, old(View()), ps, frame)
    {
      match Unwrap(world.suite, heap[ps], frame)
      case Installed(key) =>
        heap := heap[ps := heap[ps].(enclavePublicKey := Some(key))];
        finishing := finishing + [Finisher(ps, Fresh, [])];
      case _ =>
    }

    /**
     The next region: take the queue, save the pairing, send one message, or be done. A
     finisher's pairing has its key in every run (EnclaveOrder.RunKeepsFinishers).
     */
    method NextKey(k: nat, nonce: Nonce, transportOk: bool)
      requires k < |finishing|
      modifies this`queue, this`disk, this`finishing, this`wire
      ensures View() == KeyAdvanced(old(View()), k)
    {
      var f := finishing[k];
      if f.ps >= |heap| {
        return;
      }
      match f.stage
      case Fresh =>
        finishing := finishing[k := f.(stage := Taken, batch := queue)];
        queue := [];
      case Taken =>
        disk := Some(ToPersisted(heap[f.ps]));
        finishing := finishing[k := f.(stage := Saved)];
      case Saved =>
        if f.batch == [] {
          finishing := finishing[..k] + finishing[k + 1..];
        } else {
          if heap[f.ps].enclavePublicKey.Some? {
            var _ := Transmit(f.ps, f.batch[0], true, nonce, transportOk);
          }
          finishing := finishing[k := f.(batch := f.batch[1..])];
        }
    }

    /** Any step of the system, taken by whichever goroutine. */
    method Perform(e: Event, nonce: Nonce)
      requires Valid()
      modifies this
      ensures View() == Step(world, old(View()), e) && Valid()
      ensures !e.Restart? ==> old(owner) <= owner && |old(heap)| <= |heap|
    {
      StepKeepsChannels(world, View(), e);
      if !e.Restart? { StepGrows(world, View(), e); }
      ghost var t := Step(world, View(), e);
      if IsReceipt(e) {
        PerformReceipt(e, nonce);
      } else if TouchesChannels(e) {
        PerformForWaiter(e);
      } else {
        PerformElsewhere(e, nonce);
      }
      assert View() == t;
    }

    method PerformForWaiter(e: Event)
      requires Valid() && TouchesChannels(e) && !IsReceipt(e)
      modifies this
      ensures View() == Step(world, old(View()), e)
    {
      ghost var s, t := View(), Step(world, View(), e);
      match e
      case Restart => assert t == Restarted(s); CrashAndStart();
      case Register(id) => assert t == Registered(s, id); var _ := Register(id);
      case Take(ch) => assert t == Took(s, ch); var _ := Receive(ch);
      case Poll(id) => assert t == Polled(s, id); var _, _ := LookUp(id);
      case GiveUp(id) => assert t == GivenUp(s, id); GiveUp(id);
    }

    method PerformReceipt(e: Event, nonce: Nonce)
      requires Valid() && IsReceipt(e)
      modifies this
      ensures View() == Step(world, old(View()), e)
    {
      ghost var s, t := View(), Step(world, View(), e);
      if e.ps >= |heap| {
        assert t == s;
      } else if e.Inbound? {
        assert t == Inbounded(world, s, e.ps, e.frame, e.medium);
        var _ := HandleCiphertextFor(e.ps, e.frame, e.medium, nonce, true);
      } else {
        assert t == Handled(s, e.ps, e.response, e.medium);
        HandleMessage(e.ps, e.response, e.medium);
      }
    }

    /** Is the request waiting in the table, and was it acknowledged? Looking moves its entries to the front. */
    method LookUp(id: RequestId) returns (requestPending: bool, requestAcked: bool)
      modifies this`callbacks, this`acked
      ensures View() == Polled(old(View()), id)
      ensures requestPending <==> Lru.Has(callbacks, id)
      ensures requestPending <==> Lru.Has(old(callbacks), id)
      ensures requestAcked <==> Lru.Has(old(acked), id)
      ensures requestAcked <==> Lru.Has(acked, id)
      ensures requestPending ==> callbacks[0].key == id
      ensures requestAcked ==> acked[0].key == id
    {
      requestPending := Lru.Has(callbacks, id);
      requestAcked := Lru.Has(acked, id);
      TouchFindsSame(callbacks, id);
      TouchFindsSame(acked, id);
      callbacks, acked := Lru.Touch(callbacks, id), Lru.Touch(acked, id);
    }

    /** The waiter on channel `ch` takes the next item, if there is one. */
    method Receive(ch: nat) returns (item: Option<Item>)
      modifies this`taken
      ensures View() == Took(old(View()), ch)
      ensures item == None ==> taken == old(taken)
      ensures ch < |sent| && ch < |old(taken)| && old(taken)[ch] < |sent[ch]| ==>
                item == Some(sent[ch][old(taken)[ch]]) && taken == old(taken)[ch := old(taken)[ch] + 1]
    {
      item := None;
      if ch < |taken| && ch < |sent| && taken[ch] < |sent[ch]| {
        item := Some(sent[ch][taken[ch]]);
        taken := taken[ch := taken[ch] + 1];
      }
    }

    method PerformElsewhere(e: Event, nonce: Nonce)
      requires !TouchesChannels(e)
      modifies this
      ensures View() == Step(world, old(View()), e)
    {
      match e
      case Pair(keys, name, version) => Pair(keys, name, version);
      case Unpair => UnpairCurrent();
      case Send(ps, m, q) =>
        if ps < |heap| { var _ := SendMessage(ps, m, q, nonce, true); }
      case SendBegin(ps, m, q) =>
        if ps < |heap| { var _ := BeginSend(ps, m, q, nonce, true); }
      case SendEnd(k) =>
        if k < |waiting| { EndSend(k); }
      case KeyBegin(ps, frame) =>
        if ps < |heap| { BeginKey(ps, frame); }
      case KeyNext(k) =>
        if k < |finishing| { NextKey(k, nonce, true); }
      case CacheMe(profile) => me, diskMe := Some(profile), Some(profile);
    }

    method PerformAll(events: seq<Event>, nonce: Nonce)
      requires Valid()
      requires NoRestart(events)
      modifies this
      ensures Leads(world, old(View()), events, View()) && Valid()
      ensures old(owner) <= owner && |old(heap)| <= |heap|
    {
      var i := 0;
      while i < |events|
        invariant 0 <= i <= |events|
        invariant View() == RunFrom(world, old(View()), events[..i]) && Valid()
        invariant old(owner) <= owner && |old(heap)| <= |heap|
      {
        assert events[..i + 1][..i] == events[..i];
        Perform(events[i], nonce);
        i := i + 1;
      }
      assert events[..i] == events;
    }

    /** `trace` is a run of the system from `start` to here, and the channels of `owners` still exist. */
    ghost predicate Since(start: State, trace: seq<Event>, owners: seq<RequestId>)
      reads this
    {
      Valid() && Leads(world, start, trace, View()) && owners <= owner
    }

    /** Register, and send in two halves, with whatever happens before each of them. */
    method RegisterAndSend(ps: nat, id: RequestId, message: Bytes, between: seq<Event>, during: seq<Event>,
                           nonce: Nonce, transportOk: bool)
      returns (ch: nat, err: Option<SendFailure>, k: nat, ghost owners: seq<RequestId>)
      requires Valid() && ps < |heap| && NoRestart(between) && NoRestart(during)
      modifies this
      ensures Since(old(View()), SendTrace(id, Send.Send(ps, message, k), between, during), owners)
      ensures Completed(world, old(View()), id, Send.Send(ps, message, k), between, during)
      ensures ch == |old(sent)| && ch < |owners| && owners[ch] == id
      ensures err == None || err == Some(SendQueued) || err == Some(SendError)
    {
      ghost var s0 := View();
      ch := Register(id);
      RegisterKeeps(s0, id);
      LeadsOne(world, s0, Event.Register(id));
      owners := owner;
      ghost var trace := [Event.Register(id)];
      err := BeginSendAfter(ps, message, between, nonce, transportOk, s0, trace, owners);
      trace := trace + (between + [Event.SendBegin(ps, message, true)]);
      var mine := if err == Some(SendQueued) then Some(Sender(Offer(ps, message), true)) else None;
      k := FinishSendAfter(mine, during, nonce, s0, trace, owners);
    }

    method BeginSendAfter(ps: nat, message: Bytes, between: seq<Event>, nonce: Nonce, transportOk: bool,
                          ghost start: State, ghost before: seq<Event>, ghost owners: seq<RequestId>)
      returns (err: Option<SendFailure>)
      requires Since(start, before, owners) && ps < |heap| && NoRestart(between)
      modifies this
      ensures Since(start, before + (between + [Event.SendBegin(ps, message, true)]), owners)
      ensures Awaits(world, start, before + between, ps, err == Some(SendQueued))
      ensures err == None || err == Some(SendQueued) || err == Some(SendError)
    {
      ghost var s1 := View();
      PerformAll(between, nonce);
      ghost var s2 := View();
      err := BeginSend(ps, message, true, nonce, transportOk);
      ghost var begin := Event.SendBegin(ps, message, true);
      StepKeepsChannels(world, s2, begin);
      LeadsOne(world, s2, begin);
      LeadsConcat(world, s1, between, s2, [begin], View());
      LeadsConcat(world, start, before, s1, between + [begin], View());
      LeadsConcat(world, start, before, s1, between, s2);
      AwaitsIs(world, start, before + between, ps, s2);
    }

    method FinishSendAfter(mine: Option<Sender>, during: seq<Event>, nonce: Nonce,
                           ghost start: State, ghost before: seq<Event>, ghost owners: seq<RequestId>)
      returns (k: nat)
      requires Since(start, before, owners) && NoRestart(during)
      modifies this
      ensures Since(start, before + (during + [Event.SendEnd(k)]), owners)
      ensures FoundAt(world, start, before + during, mine, k)
    {
      ghost var s1 := View();
      PerformAll(during, nonce);
      ghost var s2 := View();
      k := FinishSend(mine);
      StepKeepsChannels(world, s2, Event.SendEnd(k));
      LeadsOne(world, s2, Event.SendEnd(k));
      LeadsConcat(world, s1, during, s2, [Event.SendEnd(k)], View());
      LeadsConcat(world, start, before, s1, during + [Event.SendEnd(k)], View());
      LeadsConcat(world, start, before, s1, during, s2);
      FoundIs(world, start, before + during, mine, k, s2);
    }

    /** One turn of the poll loop: handle the traffic, then look the request up in both tables. */
    method PollRound(id: RequestId, traffic: seq<Event>, nonce: Nonce)
      returns (requestPending: bool, requestAcked: bool)
      requires Valid() && NoRestart(traffic)
      modifies this
      ensures Valid() && Leads(world, old(View()), traffic + [Event.Poll(id)], View())
      ensures old(owner) <= owner
      ensures (requestPending <==> Lru.Has(callbacks, id)) && (requestAcked <==> Lru.Has(acked, id))
    {
      PerformAll(traffic, nonce);
      PollKeeps(View(), id);
      LeadsOne(world, View(), Event.Poll(id));
      LeadsConcat(world, old(View()), traffic, View(), [Event.Poll(id)], Polled(View(), id));
      Lru.TouchKeeps(callbacks, id);
      requestPending, requestAcked := LookUp(id);
    }

    /** The same turn, appended to what happened since `start`. */
    method PollTraced(id: RequestId, traffic: seq<Event>, nonce: Nonce,
                      ghost start: State, ghost before: seq<Event>, ghost polls: seq<Event>, ghost owners: seq<RequestId>)
      returns (requestPending: bool, requestAcked: bool)
      requires Since(start, before + polls, owners) && NoRestart(traffic)
      modifies this
      ensures Since(start, before + (polls + (traffic + [Event.Poll(id)])), owners)
      ensures (requestPending <==> Lru.Has(callbacks, id)) && (requestAcked <==> Lru.Has(acked, id))
    {
      requestPending, requestAcked := PollRound(id, traffic, nonce);
      ghost var turn := traffic + [Event.Poll(id)];
      LeadsConcat(world, start, before + polls, old(View()), turn, View());
      assert before + polls + turn == before + (polls + turn);
    }

    /** Round `k` of the script, and whether it is the last: the request is gone or its time has passed. */
    method PollOnce(id: RequestId, timeoutAt: int, script: seq<Round>, k: nat, nonce: Nonce,
                    ghost start: State, ghost before: seq<Event>, ghost owners: seq<RequestId>)
      returns (done: bool)
      requires k < |script| && NoRestart(script[k].poll.events)
      requires Since(start, before + PollTrace(id, script, k), owners)
      modifies this
      ensures Since(start, before + PollTrace(id, script, k + 1), owners)
      ensures done <==> !GoesOn(View(), id, script[k].poll.at, timeoutAt, ackDelay)
    {
      var leg := script[k].poll;
      var requestPending, requestAcked :=
        PollTraced(id, leg.events, nonce, start, before, PollTrace(id, script, k), owners);
      var deadline := if requestAcked then timeoutAt + ackDelay else timeoutAt;
      done := leg.at > deadline || !requestPending;
    }

    /**
     Poll until the request is not pending any more or its time has passed: the timeout, or
     one ACK delay more once it is acknowledged.
     */
    method PollUntilDone(id: RequestId, timeoutAt: int, script: seq<Round>, nonce: Nonce, ghost horizon: nat,
                         ghost start: State, ghost before: seq<Event>, ghost owners: seq<RequestId>)
      returns (last: nat)
      requires Since(start, before, owners) && AllLive(script)
      requires horizon < |script| && script[horizon].poll.at > timeoutAt + ackDelay
      modifies this
      ensures last <= horizon && Since(start, before + PollTrace(id, script, last + 1), owners)
      ensures !GoesOn(View(), id, script[last].poll.at, timeoutAt, ackDelay)
      ensures PolledThrough(world, start, before, id, script, last, timeoutAt, ackDelay)
    {
      last := 0;
      assert before + PollTrace(id, script, 0) == before;
      while true
        invariant last <= horizon && Since(start, before + PollTrace(id, script, last), owners)
        invariant forall k :: 0 <= k < last ==> WentOn(world, start, before, id, script, k, timeoutAt, ackDelay)
        decreases horizon - last
      {
        var done := PollOnce(id, timeoutAt, script, last, nonce, start, before, owners);
        LookedOnce(world, start, before, id, script, last, timeoutAt, ackDelay, View());
        if done {
          break;
        }
        last := last + 1;
      }
    }

    /** `trace` leads here from `start` and ends by giving up on `id`: it is deregistered and its channel is done. */
    ghost predicate Ended(start: State, trace: seq<Event>, id: RequestId, ch: nat)
      reads this
    {
      && Valid() && Leads(world, start, trace, View())
      && trace != [] && GivesUpAt(world, start, trace, |trace| - 1, id, ch)
      && !Lru.Has(callbacks, id) && Answerless(ch)
    }

    /** Give up after whatever happens until then. */
    method GiveUpAfter(id: RequestId, ch: nat, late: seq<Event>, nonce: Nonce,
                       ghost start: State, ghost before: seq<Event>, ghost owners: seq<RequestId>)
      requires Since(start, before, owners) && NoRestart(late) && ch < |owners| && owners[ch] == id
      modifies this
      ensures Ended(start, before + (late + [Event.GiveUp(id)]), id, ch)
    {
      ghost var s1 := View();
      PerformAll(late, nonce);
      ghost var s2 := View();
      GiveUp(id);
      LeadsConcat(world, start, before, s1, late, s2);
      LeadsOne(world, s2, Event.GiveUp(id));
      LeadsConcat(world, s1, late, s2, [Event.GiveUp(id)], View());
      LeadsConcat(world, start, before, s1, late + [Event.GiveUp(id)], View());
      GivesUpAtEnd(world, start, before, late, s2, id, ch);
    }

    /** Poll until done and then give up on whatever is still registered. */
    method PollAndGiveUp(id: RequestId, ch: nat, timeoutAt: int, script: seq<Round>, nonce: Nonce, ghost horizon: nat,
                         ghost start: State, ghost before: seq<Event>, ghost owners: seq<RequestId>)
      returns (last: nat)
      requires Since(start, before, owners) && AllLive(script) && ch < |owners| && owners[ch] == id
      requires horizon < |script| && script[horizon].poll.at > timeoutAt + ackDelay
      modifies this
      ensures last <= horizon && PolledThrough(world, start, before, id, script, last, timeoutAt, ackDelay)
      ensures Ended(start, before + PollTrace(id, script, last + 1) + (script[last].close.events + [Event.GiveUp(id)]), id, ch)
    {
      last := PollUntilDone(id, timeoutAt, script, nonce, horizon, start, before, owners);
      GiveUpAfter(id, ch, script[last].close.events, nonce, start, before + PollTrace(id, script, last + 1), owners);
    }

    /**
     Register, send, poll, and finally give up on whatever is still registered, with any
     traffic in between. `script` is what happens round by round, and `horizon` says that
     the clock advances: some round in it looks past the extended deadline.
     The source returns without deregistering if sending failed with anything but
     SendQueued or SendError; that branch is dead.
     */
    method SendRequestAndReceiveResponses(ps: nat, id: RequestId, message: Bytes, timeoutAt: int, ghost registeredAt: int,
                                          between: Leg, during: Leg, script: seq<Round>, nonce: Nonce, transportOk: bool,
                                          ghost horizon: nat)
      returns (last: nat, ch: nat, k: nat)
      requires Valid() && ps < |heap|
      requires LegFrom(between, registeredAt) && LegFrom(during, between.at) && ScriptFrom(script, during.at)
      requires horizon < |script| && script[horizon].poll.at > timeoutAt + ackDelay
      modifies this
      ensures last <= horizon
      ensures Completed(world, old(View()), id, Send.Send(ps, message, k), between.events, during.events)
      ensures PolledThrough(world, old(View()), SendTrace(id, Send.Send(ps, message, k), between.events, during.events),
                            id, script, last, timeoutAt, ackDelay)
      ensures Ended(old(View()), RequestTrace(id, Send.Send(ps, message, k), between, during, script, last), id, ch)
      ensures ch == |old(sent)| && !Lru.Has(callbacks, id) && Answerless(ch)
    {
      ghost var owners, s0 := [], View();
      var err;
      ch, err, k, owners := RegisterAndSend(ps, id, message, between.events, during.events, nonce, transportOk);
      last := 0;
      if err.Some? && err.value != SendQueued && err.value != SendError {
        return;
      }
      ScriptIsLive(script, during.at);
      ghost var before := SendTrace(id, Send.Send(ps, message, k), between.events, during.events);
      last := PollAndGiveUp(id, ch, timeoutAt, script, nonce, horizon, s0, before, owners);
    }
  }
}
