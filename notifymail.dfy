/**
 * The digest mailer command: the delivery loop over an in-memory store.
 * The clock readings, the mail connection and the transport are inputs of
 * each cycle; the store's `is_emailed` flags, the timestamp of the last
 * cycle and whether the connection is open are the mailer's state.
 */
module NotifyMail {
  import opened Wrappers
  import opened Schedule
  import opened Store
  import opened Cycle

  /** The configuration the loop reads: the (interval, label) pairs and the idle floor in seconds. */
  datatype Config = Config(intervals: seq<(int, string)>, notifySleepTime: int)

  /** How a cycle ends: by computing the pause before the next one, or by stopping the loop with an error. */
  datatype Outcome = Slept(seconds: int) | Stopped(error: Error)

  /**
   * What the outside world does during one cycle: whether the connection
   * opens, the clock at the start and at the end, and the transport's
   * answer for each settings row's digest.
   */
  datatype Round = Round(openOk: bool, startedAt: int, finishedAt: int, sendOk: seq<bool>)

  /** The state the loop carries from one cycle to the next. */
  datatype LoopState = LoopState(flags: seq<bool>, lastSent: Option<int>, connectionOpen: bool)

  /**
   * The effect of one cycle on the loop state. A failed open changes
   * nothing. An error in the cycle keeps `last_sent` and leaves the
   * connection open. A completed cycle closes the connection and records
   * the end time as `last_sent`.
   */
  function CycleEffect(settings: seq<Setting>, subscriptions: seq<Subscription>, cfg: Config,
                       s: LoopState, round: Round): (e: (Outcome, LoopState))
    requires |round.sendOk| == |settings|
    ensures |e.1.flags| == |s.flags|
    ensures forall k :: 0 <= k < |s.flags| && s.flags[k] ==> e.1.flags[k]
    ensures e.0.Slept? ==> e.1.lastSent == Some(round.finishedAt) && !e.1.connectionOpen
    ensures !round.openOk ==> e.0 == Stopped(ConnectionError) && e.1 == s
  {
    if !round.openOk then (Stopped(ConnectionError), s)
    else
      var input := CycleInput(settings, subscriptions, cfg.intervals, s.lastSent, round.startedAt, round.sendOk);
      var r := Run(input, CycleOrder(input), s.flags);
      if r.failure.Some? then (Stopped(r.failure.value), LoopState(r.flags, s.lastSent, true))
      else
        var outcome := if |cfg.intervals| == 0 then Stopped(NoIntervals)
                       else Slept(SleepTime(MinInterval(cfg.intervals), Seconds(round.finishedAt - round.startedAt), cfg.notifySleepTime));
        (outcome, LoopState(r.flags, Some(round.finishedAt), false))
  }

  /** `CycleEffect` of an opened cycle, one component at a time. */
  lemma CycleEffectParts(settings: seq<Setting>, subscriptions: seq<Subscription>, cfg: Config,
                         s: LoopState, round: Round)
    requires |round.sendOk| == |settings| && round.openOk
    ensures var input := CycleInput(settings, subscriptions, cfg.intervals, s.lastSent, round.startedAt, round.sendOk);
            var r := Run(input, CycleOrder(input), s.flags);
            var e := CycleEffect(settings, subscriptions, cfg, s, round);
            e.1.flags == r.flags &&
            (r.failure.Some? ==> e.0 == Stopped(r.failure.value) && e.1.lastSent == s.lastSent && e.1.connectionOpen) &&
            (r.failure.None? ==>
               e.1.lastSent == Some(round.finishedAt) && !e.1.connectionOpen &&
               e.0 == if |cfg.intervals| == 0 then Stopped(NoIntervals)
                      else Slept(SleepTime(MinInterval(cfg.intervals), Seconds(round.finishedAt - round.startedAt), cfg.notifySleepTime)))
  {
  }

  /**
   * `states` and `outcomes` follow the rounds: each cycle's outcome and
   * the state it leaves are its effect on the state before it.
   */
  predicate Follows(settings: seq<Setting>, subscriptions: seq<Subscription>, cfg: Config,
                    rounds: seq<Round>, outcomes: seq<Outcome>, states: seq<LoopState>)
    requires forall k :: 0 <= k < |rounds| ==> |rounds[k].sendOk| == |settings|
  {
    |outcomes| <= |rounds| && |states| == |outcomes| + 1 &&
    forall k :: 0 <= k < |outcomes| ==>
      (outcomes[k], states[k + 1]) == CycleEffect(settings, subscriptions, cfg, states[k], rounds[k])
  }

  /** One more cycle extends a trace that follows the rounds. */
  lemma FollowsExtend(settings: seq<Setting>, subscriptions: seq<Subscription>, cfg: Config,
                      rounds: seq<Round>, outcomes: seq<Outcome>, states: seq<LoopState>,
                      outcome: Outcome, post: LoopState)
    requires forall k :: 0 <= k < |rounds| ==> |rounds[k].sendOk| == |settings|
    requires Follows(settings, subscriptions, cfg, rounds, outcomes, states) && |outcomes| < |rounds|
    requires (outcome, post) == CycleEffect(settings, subscriptions, cfg, states[|outcomes|], rounds[|outcomes|])
    ensures Follows(settings, subscriptions, cfg, rounds, outcomes + [outcome], states + [post])
    ensures (outcomes + [outcome])[..|outcomes|] == outcomes && (states + [post])[..|states|] == states
  {
    var o, st := outcomes + [outcome], states + [post];
    forall k | 0 <= k < |o|
      ensures (o[k], st[k + 1]) == CycleEffect(settings, subscriptions, cfg, st[k], rounds[k])
    {
      if k < |outcomes| {
        assert o[k] == outcomes[k] && st[k + 1] == states[k + 1] && st[k] == states[k];
      }
    }
  }

  class DigestMailer {
    const settings: seq<Setting>
    const subscriptions: seq<Subscription>
    var isEmailed: seq<bool>
    var lastSent: Option<int>
    var connectionOpen: bool

    /** The mailer before its first cycle: no previous cycle, connection closed. */
    constructor (settings: seq<Setting>, subscriptions: seq<Subscription>, isEmailed: seq<bool>)
      ensures this.settings == settings && this.subscriptions == subscriptions
      ensures this.isEmailed == isEmailed
      ensures lastSent == None && !connectionOpen
    {
      this.settings := settings;
      this.subscriptions := subscriptions;
      this.isEmailed := isEmailed;
      lastSent := None;
      connectionOpen := false;
    }

    /**
     * Builds the notification list of settings row i from an empty list,
     * appending the latest notification of each subscription the query yields.
     */
    method CollectBatch(i: nat) returns (batch: seq<nat>)
      ensures batch == Batch(subscriptions, i, isEmailed)
    {
      batch := [];
      var k := 0;
      while k < |subscriptions|
        invariant 0 <= k <= |subscriptions|
        invariant batch == Batch(subscriptions[..k], i, isEmailed)
      {
        assert subscriptions[..k + 1][..k] == subscriptions[..k];
        var subscription := subscriptions[k];
        if Collects(subscription, i, isEmailed) {
          batch := batch + [subscription.latest.value];
        }
        k := k + 1;
      }
      assert subscriptions[..k] == subscriptions;
    }

    /** Sets `is_emailed` on every notification of a sent batch, one at a time. */
    method MarkEmailed(batch: seq<nat>)
      requires forall n :: n in batch ==> n < |isEmailed|
      modifies this`isEmailed
      ensures isEmailed == MarkAll(old(isEmailed), batch)
    {
      for j := 0 to |batch|
        invariant |isEmailed| == |old(isEmailed)|
        invariant forall n :: n in batch[..j] ==> n in batch
        invariant isEmailed == MarkAll(old(isEmailed), batch[..j])
      {
        assert batch[..j + 1][..j] == batch[..j];
        assert batch[j] in batch;
        isEmailed := isEmailed[batch[j] := true];
      }
      assert batch[..|batch|] == batch;
    }

    /**
     * The body of the loop over the due settings: visiting row i with the
     * digests sent so far, as `Visit` describes. The label is looked up
     * first, the notification list is built from empty, and the flags are
     * set only after the send succeeded.
     */
    method VisitRow(cfg: Config, startedAt: int, sendOk: seq<bool>, i: nat, sent: seq<Digest>)
      returns (sent': seq<Digest>, failure: Option<Error>)
      requires |sendOk| == |settings| && i < |settings|
      modifies this`isEmailed
      ensures var input := CycleInput(settings, subscriptions, cfg.intervals, lastSent, startedAt, sendOk);
              Visit(input, i, old(isEmailed), sent) == Progress(isEmailed, sent', failure)
    {
      sent', failure := sent, None;
      var setting := settings[i];
      if !Eligible(lastSent, startedAt, setting) {
        return;
      }
      var frequency := DigestLabel(cfg.intervals, setting.interval);
      if frequency.None? {
        failure := Some(IntervalNotFound(setting.interval));
        return;
      }
      var batch := CollectBatch(i);
      if |batch| > 0 {
        var digest := Digest(setting.user, frequency.value, batch);
        if !sendOk[i] {
          failure := Some(SmtpError(digest));
          return;
        }
        MarkEmailed(batch);
        sent' := sent + [digest];
      }
    }

    /**
     * The `for setting in ...` loop of one cycle: visits the rows in the
     * given order as `Run` describes, and stops at the first error.
     */
    method DeliverAll(cfg: Config, startedAt: int, sendOk: seq<bool>, order: seq<nat>)
      returns (sent: seq<Digest>, failure: Option<Error>)
      requires |sendOk| == |settings|
      requires forall j :: 0 <= j < |order| ==> order[j] < |settings|
      modifies this`isEmailed
      ensures Run(CycleInput(settings, subscriptions, cfg.intervals, lastSent, startedAt, sendOk), order, old(isEmailed))
              == Progress(isEmailed, sent, failure)
    {
      ghost var input := CycleInput(settings, subscriptions, cfg.intervals, lastSent, startedAt, sendOk);
      ghost var flags0 := isEmailed;
      sent := [];
      failure := None;
      var j := 0;
      while j < |order|
        invariant 0 <= j <= |order|
        invariant failure == None
        invariant Run(input, order[..j], flags0) == Progress(isEmailed, sent, None)
      {
        assert order[..j + 1][..j] == order[..j];
        assert order[j] in order;
        sent, failure := VisitRow(cfg, startedAt, sendOk, order[j], sent);
        if failure.Some? {
          FailureIsFinal(input, order[..j + 1], order[j + 1..], flags0);
          assert order[..j + 1] + order[j + 1..] == order;
          return;
        }
        j := j + 1;
      }
      assert order[..j] == order;
    }

    /**
     * One iteration of the delivery loop. If the connection cannot be
     * opened nothing changes. Otherwise the settings rows are visited in
     * ascending user order as `Run` describes; an error leaves the
     * connection open and the last-cycle timestamp as it was. A cycle
     * that completes closes the connection, records the end time as the
     * last cycle, and returns the pause, or stops when no interval is
     * configured to take the minimum of.
     * `Step` restates the new state as `CycleEffect`, without the digests.
     */
    method RunCycle(cfg: Config, openOk: bool, startedAt: int, finishedAt: int, sendOk: seq<bool>)
      returns (outcome: Outcome, sent: seq<Digest>)
      requires |sendOk| == |settings|
      modifies this
      ensures !openOk ==> outcome == Stopped(ConnectionError) && sent == [] &&
                          isEmailed == old(isEmailed) && lastSent == old(lastSent) &&
                          connectionOpen == old(connectionOpen)
      ensures openOk ==>
                var input := CycleInput(settings, subscriptions, cfg.intervals, old(lastSent), startedAt, sendOk);
                var r := Run(input, CycleOrder(input), old(isEmailed));
                isEmailed == r.flags && sent == r.sent &&
                (r.failure.Some? ==>
                   outcome == Stopped(r.failure.value) && lastSent == old(lastSent) && connectionOpen) &&
                (r.failure.None? ==>
                   lastSent == Some(finishedAt) && !connectionOpen &&
                   outcome == if |cfg.intervals| == 0 then Stopped(NoIntervals)
                              else Slept(SleepTime(MinInterval(cfg.intervals), Seconds(finishedAt - startedAt), cfg.notifySleepTime)))
    {
      sent := [];
      if !openOk {
        outcome := Stopped(ConnectionError);
        return;
      }
      connectionOpen := true;
      var order := OrderByUser(settings, |settings|);
      var failure;
      sent, failure := DeliverAll(cfg, startedAt, sendOk, order);
      if failure.Some? {
        outcome := Stopped(failure.value);
        return;
      }
      connectionOpen := false;
      lastSent := Some(finishedAt);
      if |cfg.intervals| == 0 {
        outcome := Stopped(NoIntervals);
      } else {
        var elapsed := Seconds(finishedAt - startedAt);
        outcome := Slept(SleepTime(MinInterval(cfg.intervals), elapsed, cfg.notifySleepTime));
      }
    }

    /** One cycle seen from the loop: its outcome and the state it leaves, as `CycleEffect` says. */
    method Step(cfg: Config, round: Round) returns (outcome: Outcome)
      requires |round.sendOk| == |settings|
      modifies this
      ensures (outcome, LoopState(isEmailed, lastSent, connectionOpen)) ==
              CycleEffect(settings, subscriptions, cfg, LoopState(old(isEmailed), old(lastSent), old(connectionOpen)), round)
    {
      ghost var pre := LoopState(isEmailed, lastSent, connectionOpen);
      var sent;
      outcome, sent := RunCycle(cfg, round.openOk, round.startedAt, round.finishedAt, round.sendOk);
      if round.openOk {
        CycleEffectParts(settings, subscriptions, cfg, pre, round);
      }
    }

    /**
     * The `while True` loop, bounded by the rounds the outside world
     * supplies. `states` are the loop states between the cycles: each cycle
     * starts from the state the previous one left (so a round's gate
     * measures from the end of the previous completed cycle), and the first
     * cycle that stops ends the loop.
     */
    method Serve(cfg: Config, rounds: seq<Round>) returns (outcomes: seq<Outcome>, ghost states: seq<LoopState>)
      requires forall k :: 0 <= k < |rounds| ==> |rounds[k].sendOk| == |settings|
      modifies this
      ensures Follows(settings, subscriptions, cfg, rounds, outcomes, states)
      ensures states[0] == LoopState(old(isEmailed), old(lastSent), old(connectionOpen))
      ensures states[|outcomes|] == LoopState(isEmailed, lastSent, connectionOpen)
      ensures forall k :: 0 <= k < |outcomes| - 1 ==> outcomes[k].Slept?
      ensures |outcomes| < |rounds| ==> |outcomes| > 0 && outcomes[|outcomes| - 1].Stopped?
      ensures |outcomes| > 0 && outcomes[|outcomes| - 1].Slept? ==>
                lastSent == Some(rounds[|outcomes| - 1].finishedAt) && !connectionOpen
      ensures |isEmailed| == |old(isEmailed)|
      ensures forall k :: 0 <= k < |old(isEmailed)| && old(isEmailed)[k] ==> isEmailed[k]
    {
      outcomes := [];
      states := [LoopState(isEmailed, lastSent, connectionOpen)];
      var j := 0;
      while j < |rounds|
        invariant 0 <= j <= |rounds| && |outcomes| == j
        invariant Follows(settings, subscriptions, cfg, rounds, outcomes, states)
        invariant states[0] == LoopState(old(isEmailed), old(lastSent), old(connectionOpen))
        invariant states[j] == LoopState(isEmailed, lastSent, connectionOpen)
        invariant forall k :: 0 <= k < j ==> outcomes[k].Slept?
        invariant |isEmailed| == |old(isEmailed)|
        invariant forall k :: 0 <= k < |old(isEmailed)| && old(isEmailed)[k] ==> isEmailed[k]
      {
        var outcome := Step(cfg, rounds[j]);
        FollowsExtend(settings, subscriptions, cfg, rounds, outcomes, states, outcome, LoopState(isEmailed, lastSent, connectionOpen));
        outcomes := outcomes + [outcome];
        states := states + [LoopState(isEmailed, lastSent, connectionOpen)];
        if outcome.Stopped? {
          return;
        }
        j := j + 1;
      }
    }
  }
}
