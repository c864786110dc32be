/**
 A request from both sides: the poller, which registers, polls and gives up, and the
 select loop, which waits on the channel that the poller registered. Neither bounds the
 request on its own; together they do, since a channel hears no ACK after the poller gave
 up on it.
 */
module Deadline {
  import opened Basics
  import opened Crypto
  import opened Enclave
  import opened EnclaveChannels
  import opened EnclaveClient
  import opened Request

  ghost function LogOf(s: State, ch: nat): seq<Item> {
    if ch < |s.sent| then s.sent[ch] else []
  }

  /** Entry `i` of `logs` is what channel `ch` has carried after `i` steps of the run from `s0`. */
  ghost predicate Logged(w: World, s0: State, events: seq<Event>, ch: nat, logs: seq<seq<Item>>) {
    && |logs| == |events| + 1
    && forall i, prefix :: 0 <= i <= |events| && prefix == events[..i] ==> LogOf(RunFrom(w, s0, prefix), ch) == logs[i]
  }

  /** Every run has its log. */
  ghost function LogsOf(w: World, s0: State, events: seq<Event>, ch: nat): (logs: seq<seq<Item>>)
    ensures Logged(w, s0, events, ch, logs)
  {
    seq(|events| + 1, i requires 0 <= i <= |events| => LogOf(RunFrom(w, s0, events[..i]), ch))
  }

  /** Step `i` puts `item` on the channel. */
  ghost predicate Puts(logs: seq<seq<Item>>, i: nat, item: Item) {
    i + 1 < |logs| && logs[i + 1] == logs[i] + [item]
  }

  /** The waiter takes each ACK within `lag` of the step that put it on the channel. */
  ghost predicate TakenWithin(logs: seq<seq<Item>>, times: seq<int>, wakes: seq<Wake>, lag: nat) {
    forall k :: TakesAck(wakes, k) ==>
      exists i: nat :: Puts(logs, i, wakes[k].item) && i < |times| && times[i] <= wakes[k].at <= times[i] + lag
  }

  lemma SplitAtGiveUp(w: World, s0: State, events: seq<Event>, g: nat, id: RequestId, i: nat)
    requires g < i <= |events| && events[g] == GiveUp(id)
    ensures RunFrom(w, s0, events[..i]) == RunFrom(w, GivenUp(RunFrom(w, s0, events[..g]), id), events[g + 1..i])
  {
    var upTo, after := events[..g], events[g + 1..i];
    assert events[..i] == upTo + [GiveUp(id)] + after;
    RunConcat(w, s0, upTo + [GiveUp(id)], after);
    RunSnoc(w, s0, upTo, GiveUp(id));
    var s := RunFrom(w, s0, upTo);
    assert Step(w, s, GiveUp(id)) == GivenUp(s, id);
  }

  lemma SilentSince(w: World, s0: State, events: seq<Event>, g: nat, id: RequestId, ch: nat, logs: seq<seq<Item>>, i: nat)
    requires ChannelInv(s0) && GivesUpAt(w, s0, events, g, id, ch) && Logged(w, s0, events, ch, logs) && g < i <= |events|
    ensures logs[i] == LogOf(GivenUp(RunFrom(w, s0, events[..g]), id), ch)
  {
    var after := events[g + 1..i];
    assert forall k :: 0 <= k < |after| ==> after[k] == events[g + 1..][k];
    RunKeepsChannels(w, s0, events[..g]);
    SilencedFrom(w, RunFrom(w, s0, events[..g]), id, after, ch);
    SplitAtGiveUp(w, s0, events, g, id, i);
    assert LogOf(RunFrom(w, s0, events[..i]), ch) == logs[i];
  }

  lemma PutsBeforeGiveUp(w: World, s0: State, events: seq<Event>, g: nat, id: RequestId, ch: nat,
                         logs: seq<seq<Item>>, i: nat, item: Item)
    requires ChannelInv(s0) && GivesUpAt(w, s0, events, g, id, ch) && Logged(w, s0, events, ch, logs) && Puts(logs, i, item)
    ensures i <= g
  {
    if i > g {
      SilentSince(w, s0, events, g, id, ch, logs, i);
      SilentSince(w, s0, events, g, id, ch, logs, i + 1);
    }
  }

  /** In every run in which the poller gives up at step `g`, the select loop is over soon after. */
  lemma EndsAfterGiveUp(w: World, s0: State, events: seq<Event>, times: seq<int>, g: nat, id: RequestId, ch: nat,
                        logs: seq<seq<Item>>, c: Config, start: int, wakes: seq<Wake>)
    requires ChannelInv(s0) && GivesUpAt(w, s0, events, g, id, ch) && Logged(w, s0, events, ch, logs)
    requires |times| == |events| && Ascending(times) && TakenWithin(logs, times, wakes, c.lag)
    ensures Finished(c, start, wakes).endedAt <= Max(start + c.timeout, times[g] + c.lag + c.ackDelay) + c.lag
  {
    forall k | TakesAck(wakes, k) ensures wakes[k].at <= times[g] + c.lag {
      var i: nat :| Puts(logs, i, wakes[k].item) && i < |times| && times[i] <= wakes[k].at <= times[i] + c.lag;
      PutsBeforeGiveUp(w, s0, events, g, id, ch, logs, i, wakes[k].item);
    }
    EndBound(c, start, wakes, times[g] + c.lag);
  }

  /** What follows a run that ended by giving up does not move the step that did. */
  lemma StillGivesUp(w: World, s0: State, trace: seq<Event>, after: seq<Event>, id: RequestId, ch: nat)
    requires trace != [] && GivesUpAt(w, s0, trace, |trace| - 1, id, ch) && NoRestart(after)
    ensures GivesUpAt(w, s0, trace + after, |trace| - 1, id, ch)
  {
    var all, g := trace + after, |trace| - 1;
    assert all[..g] == trace[..g] && all[g + 1..] == after;
  }

  /**
   A round, the give-up that may end it included, lasts at most `round`. The first round has
   no round before it: it, and with it registering and sending, is over by `round` after the
   extended deadline.
   */
  ghost predicate RoundsWithin(script: seq<Round>, deadline: int, round: nat) {
    forall k :: 0 <= k < |script| ==> script[k].close.at <= LookedBefore(script, deadline, k) + round
  }

  /**
   Whatever happens afterwards, however the select loop is scheduled and whenever it
   started: it is over by its own timeout, or two ACK delays and a round after the
   poller's, give or take how late the loop may be in taking what is ready.
   */
  ghost predicate InTime(w: World, s0: State, trace: seq<Event>, times: seq<int>, ch: nat,
                         c: Config, timeoutAt: int, round: nat) {
    forall after, afterTimes, logs, start, wakes ::
      Waits(w, s0, trace + after, times + afterTimes, ch, logs, c, wakes) && NoRestart(after) ==>
        Finished(c, start, wakes).endedAt
        <= Max(start + c.timeout, timeoutAt + 2 * c.ackDelay + round + c.lag) + c.lag
  }

  /** A schedule of the select loop on channel `ch` that fits the timed run `events`. */
  ghost predicate Waits(w: World, s0: State, events: seq<Event>, times: seq<int>, ch: nat,
                        logs: seq<seq<Item>>, c: Config, wakes: seq<Wake>) {
    && |times| == |events| && Ascending(times)
    && Logged(w, s0, events, ch, logs) && TakenWithin(logs, times, wakes, c.lag)
  }

  /** The last step of a timed run happens by time `t`. */
  ghost predicate LastBy(trace: seq<Event>, times: seq<int>, t: int) {
    |times| == |trace| > 0 && times[|times| - 1] <= t
  }

  lemma InTimeIfGivenUp(w: World, s0: State, trace: seq<Event>, times: seq<int>, id: RequestId, ch: nat,
                        c: Config, timeoutAt: int, round: nat)
    requires ChannelInv(s0) && EndsByGivingUp(w, s0, trace, id, ch)
    requires LastBy(trace, times, timeoutAt + c.ackDelay + round)
    ensures InTime(w, s0, trace, times, ch, c, timeoutAt, round)
  {
    forall after, afterTimes, logs, start, wakes |
      Waits(w, s0, trace + after, times + afterTimes, ch, logs, c, wakes) && NoRestart(after)
      ensures Finished(c, start, wakes).endedAt
              <= Max(start + c.timeout, timeoutAt + 2 * c.ackDelay + round + c.lag) + c.lag
    {
      StillGivesUp(w, s0, trace, after, id, ch);
      EndsAfterGiveUp(w, s0, trace + after, times + afterTimes, |trace| - 1, id, ch, logs, c, start, wakes);
    }
  }

  /** The round that ends the poll loop began by the extended deadline, so it gives up a round later at the latest. */
  lemma GivesUpInTime(id: RequestId, send: Send, registeredAt: int, between: Leg, during: Leg, script: seq<Round>, last: nat,
                      deadline: int, round: nat)
    requires last < |script| && LegFrom(between, registeredAt) && LegFrom(during, between.at) && ScriptFrom(script, during.at)
    requires RoundsWithin(script, deadline, round) && forall k :: 0 <= k < last ==> script[k].poll.at <= deadline
    ensures LastBy(RequestTrace(id, send, between, during, script, last), RequestTimes(registeredAt, between, during, script, last),
                   deadline + round)
  {
    RequestStamped(id, send, registeredAt, between, during, script, last);
    assert LookedBefore(script, deadline, last) <= deadline;
  }

  lemma PolledInTime(w: World, s0: State, before: seq<Event>, id: RequestId, script: seq<Round>, last: nat,
                     timeoutAt: int, ackDelay: nat)
    requires last < |script| && PolledThrough(w, s0, before, id, script, last, timeoutAt, ackDelay)
    ensures forall k :: 0 <= k < last ==> script[k].poll.at <= timeoutAt + ackDelay
  {
    forall k | 0 <= k < last ensures script[k].poll.at <= timeoutAt + ackDelay {
      assert WentOn(w, s0, before, id, script, k, timeoutAt, ackDelay);
    }
  }

  ghost predicate EndsByGivingUp(w: World, s0: State, trace: seq<Event>, id: RequestId, ch: nat) {
    trace != [] && GivesUpAt(w, s0, trace, |trace| - 1, id, ch)
  }

  lemma RequestIsInTime(w: World, s0: State, id: RequestId, send: Send, ch: nat, registeredAt: int, between: Leg,
                        during: Leg, script: seq<Round>, last: nat, c: Config, timeoutAt: int, round: nat)
    requires ChannelInv(s0) && last < |script| && LegFrom(between, registeredAt) && LegFrom(during, between.at) && ScriptFrom(script, during.at)
    requires RoundsWithin(script, timeoutAt + c.ackDelay, round)
    requires forall k :: 0 <= k < last ==> script[k].poll.at <= timeoutAt + c.ackDelay
    requires EndsByGivingUp(w, s0, RequestTrace(id, send, between, during, script, last), id, ch)
    ensures InTime(w, s0, RequestTrace(id, send, between, during, script, last),
                   RequestTimes(registeredAt, between, during, script, last), ch, c, timeoutAt, round)
  {
    GivesUpInTime(id, send, registeredAt, between, during, script, last, timeoutAt + c.ackDelay, round);
    InTimeIfGivenUp(w, s0, RequestTrace(id, send, between, during, script, last),
                    RequestTimes(registeredAt, between, during, script, last), id, ch, c, timeoutAt, round);
  }

  /**
   The client performs a request, with any traffic at all and rounds of at most `round`;
   then no select loop on its channel outlasts the bound of InTime.
   */
  method RequestInTime(client: EnclaveClient, ps: nat, id: RequestId, message: Bytes, timeoutAt: int, ghost registeredAt: int,
                       between: Leg, during: Leg, script: seq<Round>, nonce: Nonce, transportOk: bool, ghost horizon: nat,
                       ghost c: Config, ghost round: nat)
    returns (last: nat, ch: nat, k: nat)
    requires client.Valid() && ps < |client.heap| && c.ackDelay == client.ackDelay
    requires LegFrom(between, registeredAt) && LegFrom(during, between.at) && ScriptFrom(script, during.at)
    requires horizon < |script| && script[horizon].poll.at > timeoutAt + client.ackDelay
    requires RoundsWithin(script, timeoutAt + client.ackDelay, round)
    modifies client
    ensures last <= horizon && ch == |old(client.sent)|
    ensures client.Ended(old(client.View()), RequestTrace(id, Send.Send(ps, message, k), between, during, script, last), id, ch)
    ensures InTime(client.world, old(client.View()), RequestTrace(id, Send.Send(ps, message, k), between, during, script, last),
                   RequestTimes(registeredAt, between, during, script, last), ch, c, timeoutAt, round)
  {
    ghost var s0 := client.View();
    last, ch, k := client.SendRequestAndReceiveResponses(ps, id, message, timeoutAt, registeredAt, between, during, script,
                                                         nonce, transportOk, horizon);
    ghost var send := Send.Send(ps, message, k);
    PolledInTime(client.world, s0, SendTrace(id, send, between.events, during.events), id, script, last, timeoutAt, c.ackDelay);
    assert EndsByGivingUp(client.world, s0, RequestTrace(id, send, between, during, script, last), id, ch);
    RequestIsInTime(client.world, s0, id, send, ch, registeredAt, between, during, script, last, c, timeoutAt, round);
  }
}
