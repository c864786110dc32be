/**
 The select loop of tryRequest, over every schedule of its three channels. A
 schedule lists, with their times, the items taken from the callback channel and
 the firing of the alert timer; the request timer fires by itself at its deadline.
 The loop may be late by up to `lag` in taking what is ready: it pushes the alert
 itself, and cannot select meanwhile.
 */
module Request {
  import opened Basics
  import opened Enclave
  import opened EnclaveChannels

  datatype Wake =
    | Arrives(at: int, item: Item)
    | AlertDue(at: int, paired: bool)

  datatype RequestError = Timeout | NotPaired

  datatype Action = CallOnAck | SeeAck | PushAlert

  function Count(trace: seq<Action>, a: Action): nat {
    if trace == [] then 0
    else Count(trace[..|trace| - 1], a) + (if trace[|trace| - 1] == a then 1 else 0)
  }

  /** An alert is pushed only while no ACK was seen. */
  ghost predicate NoAlertAfterAck(trace: seq<Action>) {
    forall i, j :: 0 <= i < j < |trace| && trace[i] == SeeAck ==> trace[j] != PushAlert
  }

  lemma CountSnoc(trace: seq<Action>, b: Action)
    ensures forall a :: Count(trace + [b], a) == Count(trace, a) + (if a == b then 1 else 0)
  {
    assert (trace + [b])[..|trace|] == trace;
  }

  /** Wake `i` pushes the alert: the timer's first firing, while paired and before any ACK. */
  ghost predicate PushesAlert(wakes: seq<Wake>, i: nat) {
    && i < |wakes| && wakes[i].AlertDue? && wakes[i].paired
    && forall j :: 0 <= j < i ==> wakes[j].Arrives? && !IsAck(wakes[j].item)
  }

  datatype Config = Config(timeout: nat, ackDelay: nat, lag: nat, alertImmediate: bool, wantsAck: bool)

  /** The loop's variables, what it has done so far, and how much of the schedule it used. */
  datatype Waiter = Waiter(
    callback: Item,
    ack: bool,
    onAckSet: bool,
    alertArmed: bool,
    deadline: int,
    over: bool,
    timedOut: bool,
    endedAt: int,
    consumed: nat,
    trace: seq<Action>)

  function Started(c: Config, start: int): Waiter {
    Waiter(Nil, false, c.wantsAck, !c.alertImmediate, start + c.timeout, false, false, start, 0, [])
  }

  /** The request timer is taken, at the latest when the loop is as late as it can be. */
  function TimedOut(c: Config, w: Waiter): Waiter {
    w.(over := true, timedOut := true, endedAt := w.deadline + c.lag)
  }

  function Woken(c: Config, w: Waiter, wake: Wake): Waiter {
    if w.over then w
    else if wake.at > w.deadline + c.lag then TimedOut(c, w)
    else
      match wake
      case Arrives(at, item) =>
        if IsAck(item) then
          w.(callback := item, ack := true, onAckSet := false, deadline := at + c.ackDelay, consumed := w.consumed + 1,
             trace := w.trace + (if w.onAckSet then [CallOnAck] else []) + [SeeAck])
        else
          w.(callback := item, over := true, endedAt := at, consumed := w.consumed + 1)
      case AlertDue(_, paired) =>
        w.(alertArmed := false, consumed := w.consumed + 1,
           trace := w.trace + if w.alertArmed && !w.ack && paired then [PushAlert] else [])
  }

  function AfterWakes(c: Config, start: int, wakes: seq<Wake>): Waiter
    decreases |wakes|
  {
    if wakes == [] then Started(c, start)
    else Woken(c, AfterWakes(c, start, wakes[..|wakes| - 1]), wakes[|wakes| - 1])
  }

  /** With nothing else to wait for, the request timer fires. */
  function Finished(c: Config, start: int, wakes: seq<Wake>): Waiter {
    var w := AfterWakes(c, start, wakes);
    if w.over then w else TimedOut(c, w)
  }

  /**
   tryRequest. `pairedAtStart` is whether a pairing is there to begin with, `pairedAtEnd`
   what IsPaired finds after the loop; Nil stands for the nil pointer. `endedAt` is when the
   answer was taken, or the time by which the timeout was noticed.
   */
  method TryRequest(c: Config, start: int, wakes: seq<Wake>, pairedAtStart: bool, pairedAtEnd: bool)
    returns (callback: Item, err: Option<RequestError>, endedAt: int, trace: seq<Action>)
    ensures !pairedAtStart ==> callback == Nil && err == Some(NotPaired) && endedAt == start && trace == []
    ensures pairedAtStart ==>
              var w := Finished(c, start, wakes);
              && callback == w.callback && endedAt == w.endedAt && trace == w.trace
              && (err == Some(NotPaired) <==> callback == Nil && !pairedAtEnd)
              && (err != Some(NotPaired) ==> (err == Some(Timeout) <==> w.timedOut))
  {
    if !pairedAtStart {
      return Nil, Some(NotPaired), start, [];
    }
    var timedOut;
    callback, timedOut, endedAt, trace := Select(c, start, wakes);
    err := if timedOut then Some(Timeout) else None;
    if callback == Nil && !pairedAtEnd {
      err := Some(NotPaired);
    }
  }

  /** The select loop itself. */
  method Select(c: Config, start: int, wakes: seq<Wake>)
    returns (callback: Item, timedOut: bool, endedAt: int, trace: seq<Action>)
    ensures var w := Finished(c, start, wakes);
            callback == w.callback && timedOut == w.timedOut && endedAt == w.endedAt && trace == w.trace
  {
    callback, trace := Nil, [];
    var deadline := start + c.timeout;
    var alertArmed := !c.alertImmediate;
    var ack, onAckSet, returned := false, c.wantsAck, false;
    endedAt := start;
    var i: nat := 0;
    while i < |wakes| && !returned && wakes[i].at <= deadline + c.lag
      invariant 0 <= i <= |wakes|
      invariant AfterWakes(c, start, wakes[..i]) ==
                Waiter(callback, ack, onAckSet, alertArmed, deadline, returned, false, endedAt, i, trace)
      decreases |wakes| - i
    {
      AfterOneMore(c, start, wakes, i);
      match wakes[i] {
        case Arrives(at, item) =>
          callback := item;
          if IsAck(item) {
            if onAckSet { trace := trace + [CallOnAck]; }
            onAckSet := false;
            ack := true;
            trace := trace + [SeeAck];
            deadline := at + c.ackDelay;
          } else {
            returned, endedAt := true, at;
          }
        case AlertDue(_, paired) =>
          if alertArmed && !ack && paired {
            trace := trace + [PushAlert];
          }
          alertArmed := false;
      }
      i := i + 1;
    }
    RestIgnored(c, start, wakes, i);
    timedOut := !returned;
    if timedOut {
      endedAt := deadline + c.lag;
    }
  }

  lemma AfterOneMore(c: Config, start: int, wakes: seq<Wake>, i: nat)
    requires i < |wakes|
    ensures AfterWakes(c, start, wakes[..i + 1]) == Woken(c, AfterWakes(c, start, wakes[..i]), wakes[i])
  {
    assert wakes[..i + 1][..i] == wakes[..i];
  }

  /** Once the loop is over, or the next wake is late, the rest of the schedule makes no difference. */
  lemma {:induction false} RestIgnored(c: Config, start: int, wakes: seq<Wake>, i: nat)
    requires i <= |wakes|
    requires AfterWakes(c, start, wakes[..i]).over || i == |wakes| || wakes[i].at > AfterWakes(c, start, wakes[..i]).deadline + c.lag
    ensures Finished(c, start, wakes) == Finished(c, start, wakes[..i])
    decreases |wakes| - i
  {
    if i == |wakes| {
      assert wakes[..i] == wakes;
    } else {
      assert wakes[..i + 1][..i] == wakes[..i];
      RestIgnored(c, start, wakes, i + 1);
    }
  }

  // ---------- laws of the loop ----------

  ghost predicate TakesAck(wakes: seq<Wake>, i: int) {
    0 <= i < |wakes| && wakes[i].Arrives? && IsAck(wakes[i].item)
  }

  ghost predicate OnlyAcks(wakes: seq<Wake>, n: int) {
    forall i :: 0 <= i < n && i < |wakes| && wakes[i].Arrives? ==> TakesAck(wakes, i)
  }

  /** Wake `i` takes `item` from the channel. */
  ghost predicate Takes(wakes: seq<Wake>, i: int, item: Item) {
    0 <= i < |wakes| && wakes[i].Arrives? && wakes[i].item == item
  }

  /** How the schedule explains the outcome. */
  ghost predicate HistoryInv(c: Config, wakes: seq<Wake>, w: Waiter) {
    && w.consumed <= |wakes| && (w.timedOut ==> w.over)
    && (w.ack <==> exists i :: i < w.consumed && TakesAck(wakes, i))
    && (!w.over ==> w.consumed == |wakes|)
    && (!w.over || w.timedOut ==> (w.callback == Nil || IsAck(w.callback)) && OnlyAcks(wakes, w.consumed))
    && (w.over && !w.timedOut ==>
          && w.consumed > 0 && wakes[w.consumed - 1] == Arrives(w.endedAt, w.callback) && !IsAck(w.callback)
          && OnlyAcks(wakes, w.consumed - 1))
    && (w.over ==> w.endedAt <= w.deadline + c.lag)
    && (w.callback.Reply? ==> exists i :: i < w.consumed && Takes(wakes, i, w.callback))
  }

  lemma HistoryStep(c: Config, wakes: seq<Wake>, w: Waiter, wake: Wake)
    requires HistoryInv(c, wakes, w)
    ensures HistoryInv(c, wakes + [wake], Woken(c, w, wake))
  {
    var all := wakes + [wake];
    assert forall i :: 0 <= i < |wakes| ==> all[i] == wakes[i];
    assert forall i :: 0 <= i < |wakes| ==> (TakesAck(all, i) <==> TakesAck(wakes, i));
    assert all[|wakes|] == wake;
    assert TakesAck(all, |wakes|) <==> wake.Arrives? && IsAck(wake.item);
    assert wake.Arrives? ==> Takes(all, |wakes|, wake.item);
    if w.callback.Reply? {
      var i :| i < w.consumed && Takes(wakes, i, w.callback);
      assert Takes(all, i, w.callback);
    }
  }

  lemma {:induction false} HistoryLaws(c: Config, start: int, wakes: seq<Wake>)
    ensures HistoryInv(c, wakes, AfterWakes(c, start, wakes))
    decreases |wakes|
  {
    if wakes != [] {
      var n := |wakes| - 1;
      HistoryLaws(c, start, wakes[..n]);
      HistoryStep(c, wakes[..n], AfterWakes(c, start, wakes[..n]), wakes[n]);
      assert wakes == wakes[..n] + [wakes[n]];
    }
  }

  /** What was done, in terms of the flags. */
  ghost predicate TraceInv(c: Config, w: Waiter) {
    && (w.ack <==> SeeAck in w.trace)
    && (w.onAckSet <==> c.wantsAck && !w.ack)
    && (w.alertArmed ==> !c.alertImmediate)
    && Count(w.trace, CallOnAck) == (if c.wantsAck && w.ack then 1 else 0)
    && Count(w.trace, PushAlert) <= (if c.alertImmediate || w.alertArmed then 0 else 1)
    && NoAlertAfterAck(w.trace)
  }

  lemma TraceSnoc(trace: seq<Action>, a: Action)
    requires NoAlertAfterAck(trace) && (a == PushAlert ==> SeeAck !in trace)
    ensures NoAlertAfterAck(trace + [a])
    ensures SeeAck in trace + [a] <==> SeeAck in trace || a == SeeAck
    ensures forall b :: Count(trace + [a], b) == Count(trace, b) + (if a == b then 1 else 0)
  {
    CountSnoc(trace, a);
    assert forall i :: 0 <= i < |trace| ==> trace[i] in trace;
  }

  lemma TraceFirstAck(c: Config, w: Waiter, item: Item, at: int)
    requires TraceInv(c, w) && !w.over && at <= w.deadline + c.lag && IsAck(item) && w.onAckSet
    ensures TraceInv(c, Woken(c, w, Arrives(at, item)))
  {
    var called := w.trace + [CallOnAck];
    TraceSnoc(w.trace, CallOnAck);
    TraceSnoc(called, SeeAck);
    assert Woken(c, w, Arrives(at, item)).trace == called + [SeeAck];
  }

  lemma TraceLaterAck(c: Config, w: Waiter, item: Item, at: int)
    requires TraceInv(c, w) && !w.over && at <= w.deadline + c.lag && IsAck(item) && !w.onAckSet
    ensures TraceInv(c, Woken(c, w, Arrives(at, item)))
  {
    TraceSnoc(w.trace, SeeAck);
    assert w.trace + [] == w.trace;
    assert Woken(c, w, Arrives(at, item)).trace == w.trace + [SeeAck];
  }

  lemma TraceAlert(c: Config, w: Waiter, at: int, paired: bool)
    requires TraceInv(c, w) && !w.over && at <= w.deadline + c.lag
    ensures TraceInv(c, Woken(c, w, AlertDue(at, paired)))
  {
    var t := Woken(c, w, AlertDue(at, paired));
    if w.alertArmed && !w.ack && paired {
      TraceSnoc(w.trace, PushAlert);
      assert t.trace == w.trace + [PushAlert];
    } else {
      assert t.trace == w.trace;
    }
  }

  lemma TraceStep(c: Config, w: Waiter, wake: Wake)
    requires TraceInv(c, w)
    ensures TraceInv(c, Woken(c, w, wake))
  {
    if !w.over && wake.at <= w.deadline + c.lag {
      if wake.AlertDue? {
        TraceAlert(c, w, wake.at, wake.paired);
      } else if IsAck(wake.item) {
        if w.onAckSet { TraceFirstAck(c, w, wake.item, wake.at); } else { TraceLaterAck(c, w, wake.item, wake.at); }
      }
    }
  }

  lemma {:induction false} TraceLaws(c: Config, start: int, wakes: seq<Wake>)
    ensures TraceInv(c, AfterWakes(c, start, wakes))
    decreases |wakes|
  {
    if wakes != [] {
      var n := |wakes| - 1;
      TraceLaws(c, start, wakes[..n]);
      TraceStep(c, AfterWakes(c, start, wakes[..n]), wakes[n]);
    }
  }

  /** When the alert goes out. */
  ghost predicate AlertInv(c: Config, wakes: seq<Wake>, w: Waiter) {
    && (w.alertArmed <==> !c.alertImmediate && forall i :: 0 <= i < w.consumed && i < |wakes| ==> wakes[i].Arrives?)
    && (PushAlert in w.trace <==> !c.alertImmediate && exists i: nat :: i < w.consumed && PushesAlert(wakes, i))
  }

  lemma AlertStep(c: Config, wakes: seq<Wake>, w: Waiter, wake: Wake)
    requires HistoryInv(c, wakes, w) && AlertInv(c, wakes, w)
    ensures AlertInv(c, wakes + [wake], Woken(c, w, wake))
  {
    var t := Woken(c, w, wake);
    var all := wakes + [wake];
    assert forall i :: 0 <= i < |wakes| ==> all[i] == wakes[i];
    assert forall i: nat :: i < |wakes| ==> (PushesAlert(all, i) <==> PushesAlert(wakes, i));
    assert all[|wakes|] == wake;
    assert w.trace + [] == w.trace;
    if !w.over {
      assert PushesAlert(all, |wakes|) <==>
             wake.AlertDue? && wake.paired && !w.ack && forall i :: 0 <= i < |wakes| ==> wakes[i].Arrives? by {
        assert !w.ack ==> forall i :: 0 <= i < |wakes| ==> !TakesAck(wakes, i);
        if w.ack {
          var i :| i < w.consumed && TakesAck(wakes, i);
          assert all[i] == wakes[i];
        }
      }
    }
  }

  lemma {:induction false} AlertLaws(c: Config, start: int, wakes: seq<Wake>)
    ensures AlertInv(c, wakes, AfterWakes(c, start, wakes))
    decreases |wakes|
  {
    if wakes != [] {
      var n := |wakes| - 1;
      AlertLaws(c, start, wakes[..n]);
      HistoryLaws(c, start, wakes[..n]);
      AlertStep(c, wakes[..n], AfterWakes(c, start, wakes[..n]), wakes[n]);
      assert wakes == wakes[..n] + [wakes[n]];
    }
  }

  /**
   For every schedule: an ACK is returned only together with a timeout; an answer is
   the first item taken that is not an ACK; onACK runs once if an ACK was taken and
   never otherwise; and the delayed alert is pushed at most once, not after an ACK, and
   exactly when its timer fires first, while paired.
   */
  lemma RequestLaws(c: Config, start: int, wakes: seq<Wake>)
    ensures var w := Finished(c, start, wakes);
            && w.over && w.consumed <= |wakes|
            && (IsAck(w.callback) ==> w.timedOut)
            && (!w.timedOut ==>
                  && w.consumed > 0 && wakes[w.consumed - 1] == Arrives(w.endedAt, w.callback) && !IsAck(w.callback)
                  && OnlyAcks(wakes, w.consumed - 1))
            && (SeeAck in w.trace <==> exists i :: i < w.consumed && TakesAck(wakes, i))
            && Count(w.trace, CallOnAck) == (if c.wantsAck && SeeAck in w.trace then 1 else 0)
            && Count(w.trace, PushAlert) <= (if c.alertImmediate then 0 else 1)
            && NoAlertAfterAck(w.trace)
            && (PushAlert in w.trace <==>
                  !c.alertImmediate && exists i: nat :: i < w.consumed && PushesAlert(wakes, i))
  {
    HistoryLaws(c, start, wakes);
    TraceLaws(c, start, wakes);
    AlertLaws(c, start, wakes);
  }

  // ---------- when the timer runs out ----------

  /** The last of the first `n` wakes that takes an ACK. */
  ghost function LastAck(wakes: seq<Wake>, n: nat): (r: Option<nat>)
    requires n <= |wakes|
    ensures r.Some? ==> r.value < n && TakesAck(wakes, r.value) && forall i :: r.value < i < n ==> !TakesAck(wakes, i)
    ensures r == None ==> forall i :: 0 <= i < n ==> !TakesAck(wakes, i)
  {
    if n == 0 then None else if TakesAck(wakes, n - 1) then Some(n - 1) else LastAck(wakes, n - 1)
  }

  /** When the request timer fires after the first `n` wakes: an ACK starts it anew. */
  ghost function DeadlineAt(c: Config, start: int, wakes: seq<Wake>, n: nat): int
    requires n <= |wakes|
  {
    match LastAck(wakes, n)
    case None => start + c.timeout
    case Some(i) => wakes[i].at + c.ackDelay
  }

  ghost function LastAckItem(wakes: seq<Wake>, n: nat): Item
    requires n <= |wakes|
  {
    match LastAck(wakes, n)
    case None => Nil
    case Some(i) => wakes[i].item
  }

  ghost predicate Timely(c: Config, start: int, wakes: seq<Wake>, i: nat)
    requires i < |wakes|
  {
    wakes[i].at <= DeadlineAt(c, start, wakes, i) + c.lag
  }

  lemma {:induction false} LastAckOfPrefix(wakes: seq<Wake>, wake: Wake, n: nat)
    requires n <= |wakes|
    ensures LastAck(wakes + [wake], n) == LastAck(wakes, n)
  {
    if n > 0 {
      assert (wakes + [wake])[n - 1] == wakes[n - 1];
      LastAckOfPrefix(wakes, wake, n - 1);
    }
  }

  lemma PrefixTimes(c: Config, start: int, wakes: seq<Wake>, wake: Wake)
    ensures forall n :: 0 <= n <= |wakes| ==>
              && DeadlineAt(c, start, wakes + [wake], n) == DeadlineAt(c, start, wakes, n)
              && LastAckItem(wakes + [wake], n) == LastAckItem(wakes, n)
  {
    forall n | 0 <= n <= |wakes|
      ensures && DeadlineAt(c, start, wakes + [wake], n) == DeadlineAt(c, start, wakes, n)
              && LastAckItem(wakes + [wake], n) == LastAckItem(wakes, n)
    {
      LastAckOfPrefix(wakes, wake, n);
    }
  }

  /** The loop consumes exactly the wakes that come in time, as the schedule alone determines it. */
  ghost predicate TimeInv(c: Config, start: int, wakes: seq<Wake>, w: Waiter) {
    && w.consumed <= |wakes| && (w.timedOut ==> w.over)
    && (forall i :: 0 <= i < w.consumed ==> Timely(c, start, wakes, i))
    && (!w.over ==>
          w.consumed == |wakes| && w.deadline == DeadlineAt(c, start, wakes, |wakes|) && w.callback == LastAckItem(wakes, |wakes|))
    && (w.timedOut ==>
          && w.consumed < |wakes| && !Timely(c, start, wakes, w.consumed)
          && w.endedAt == DeadlineAt(c, start, wakes, w.consumed) + c.lag && w.callback == LastAckItem(wakes, w.consumed))
  }

  lemma TimeStep(c: Config, start: int, wakes: seq<Wake>, w: Waiter, wake: Wake)
    requires TimeInv(c, start, wakes, w)
    ensures TimeInv(c, start, wakes + [wake], Woken(c, w, wake))
  {
    var all, n := wakes + [wake], |wakes|;
    PrefixTimes(c, start, wakes, wake);
    assert forall i :: 0 <= i < n ==> all[i] == wakes[i];
    assert forall i :: 0 <= i < n ==> (Timely(c, start, all, i) <==> Timely(c, start, wakes, i));
    assert all[n] == wake;
    assert LastAck(all, n + 1) == if TakesAck(all, n) then Some(n) else LastAck(all, n);
  }

  lemma {:induction false} TimeLaws(c: Config, start: int, wakes: seq<Wake>)
    ensures TimeInv(c, start, wakes, AfterWakes(c, start, wakes))
    decreases |wakes|
  {
    if wakes != [] {
      var n := |wakes| - 1;
      TimeLaws(c, start, wakes[..n]);
      TimeStep(c, start, wakes[..n], AfterWakes(c, start, wakes[..n]), wakes[n]);
      assert wakes == wakes[..n] + [wakes[n]];
    }
  }

  /**
   For every schedule: the loop times out only when nothing more is taken by the deadline,
   which is the timeout, or one ACK delay after the last ACK taken; and then it returns that
   ACK, or nil if there was none.
   */
  lemma TimeoutLaws(c: Config, start: int, wakes: seq<Wake>)
    ensures var w := Finished(c, start, wakes);
            && w.consumed <= |wakes|
            && (forall i :: 0 <= i < w.consumed ==> Timely(c, start, wakes, i))
            && (w.timedOut ==>
                  && (w.consumed < |wakes| ==> !Timely(c, start, wakes, w.consumed))
                  && w.endedAt == DeadlineAt(c, start, wakes, w.consumed) + c.lag
                  && w.callback == LastAckItem(wakes, w.consumed)
                  && OnlyAcks(wakes, w.consumed))
  {
    TimeLaws(c, start, wakes);
    HistoryLaws(c, start, wakes);
  }

  /** If everything up to the first answer comes in time, each ACK prolonging the wait, that answer is returned. */
  lemma AnswerInTimeIsReturned(c: Config, start: int, wakes: seq<Wake>, j: nat)
    requires j < |wakes| && wakes[j].Arrives? && !IsAck(wakes[j].item) && OnlyAcks(wakes, j)
    requires forall i :: 0 <= i <= j ==> Timely(c, start, wakes, i)
    ensures var w := Finished(c, start, wakes);
            !w.timedOut && w.callback == wakes[j].item && w.endedAt == wakes[j].at && w.consumed == j + 1
  {
    var w := Finished(c, start, wakes);
    TimeoutLaws(c, start, wakes);
    RequestLaws(c, start, wakes);
    assert !TakesAck(wakes, j);
    if !w.timedOut { assert !TakesAck(wakes, w.consumed - 1); }
  }

  // ---------- the loop and its channel ----------

  /** The items taken from the channel, in order. */
  function ItemsTaken(wakes: seq<Wake>): seq<Item>
    decreases |wakes|
  {
    if wakes == [] then []
    else
      var n := |wakes| - 1;
      ItemsTaken(wakes[..n]) + if wakes[n].Arrives? then [wakes[n].item] else []
  }

  lemma {:induction false} TakenIsItem(wakes: seq<Wake>, i: int, item: Item)
    requires Takes(wakes, i, item)
    ensures item in ItemsTaken(wakes)
    decreases |wakes|
  {
    var n := |wakes| - 1;
    if i < n { TakenIsItem(wakes[..n], i, item); }
  }

  /**
   In every run of the client: whatever tryRequest returns answers its own request, and
   an answer, unlike an ACK, is the last item its channel ever carries.
   */
  lemma ReplyAnswersRequest(w: World, events: seq<Event>, ch: nat, c: Config, start: int, wakes: seq<Wake>)
    requires ch < |Run(w, events).sent| && ItemsTaken(wakes) <= Run(w, events).sent[ch]
    ensures var s := Run(w, events);
            var r := Finished(c, start, wakes);
            && |s.owner| == |s.sent|
            && (r.callback.Reply? ==> r.callback.response.id == s.owner[ch])
            && (r.callback.Reply? && !r.timedOut ==> s.sent[ch] != [] && r.callback == s.sent[ch][|s.sent[ch]| - 1])
  {
    var log := Run(w, events).sent[ch];
    var r := Finished(c, start, wakes);
    ChannelProtocol(w, events, ch);
    HistoryLaws(c, start, wakes);
    if r.callback.Reply? {
      var i :| i < r.consumed && Takes(wakes, i, r.callback);
      TakenIsItem(wakes, i, r.callback);
      var j :| 0 <= j < |ItemsTaken(wakes)| && ItemsTaken(wakes)[j] == r.callback;
      assert log[j] == r.callback;
    }
  }

  // ---------- when the loop is over ----------

  function Max(a: int, b: int): int {
    if a < b then b else a
  }

  /** A deadline is the initial one or one ACK delay after the last ACK. */
  lemma {:induction false} DeadlineBound(c: Config, start: int, wakes: seq<Wake>, lastAck: int)
    requires forall i :: TakesAck(wakes, i) ==> wakes[i].at <= lastAck
    ensures AfterWakes(c, start, wakes).deadline <= Max(start + c.timeout, lastAck + c.ackDelay)
    decreases |wakes|
  {
    if wakes != [] {
      var n := |wakes| - 1;
      assert forall i :: TakesAck(wakes[..n], i) ==> TakesAck(wakes, i);
      DeadlineBound(c, start, wakes[..n], lastAck);
      assert TakesAck(wakes, n) <==> wakes[n].Arrives? && IsAck(wakes[n].item);
    }
  }

  lemma EndBound(c: Config, start: int, wakes: seq<Wake>, lastAck: int)
    requires forall i :: TakesAck(wakes, i) ==> wakes[i].at <= lastAck
    ensures Finished(c, start, wakes).endedAt <= Max(start + c.timeout, lastAck + c.ackDelay) + c.lag
  {
    HistoryLaws(c, start, wakes);
    DeadlineBound(c, start, wakes, lastAck);
  }
}
