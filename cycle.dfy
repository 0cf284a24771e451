/**
 * One iteration of the delivery loop, as a function of the store and of
 * what the transport does: which settings rows are visited, which batch is
 * built for each, which digests are handed to the transport, which flags
 * are set, and where the cycle stops.
 */
module Cycle {
  import opened Wrappers
  import opened Schedule
  import opened Store

  /**
   * A digest handed to the transport: the user it goes to, the label of
   * its delivery frequency and the notifications it lists.
   */
  datatype Digest = Digest(user: int, frequency: string, notifications: seq<nat>)

  /** Why a cycle stops the loop. */
  datatype Error =
    | ConnectionError          // opening the mail connection failed
    | SmtpError(digest: Digest) // the transport raised while sending this digest
    | IntervalNotFound(interval: int) // no configured interval has this value
    | NoIntervals               // no interval is configured, so there is no minimum

  /** What a cycle knows before it starts: the tables, the configured intervals, the clock and the transport. */
  datatype CycleInput = CycleInput(
    settings: seq<Setting>,
    subscriptions: seq<Subscription>,
    intervals: seq<(int, string)>,
    lastSent: Option<int>,
    startedAt: int,
    sendOk: seq<bool>)  // sendOk[i]: whether sending the digest of settings row i succeeds

  predicate WellFormed(input: CycleInput)
  {
    |input.sendOk| == |input.settings|
  }

  /** The state of a cycle part-way: the flags, the digests sent so far, and the error that stopped it, if any. */
  datatype Progress = Progress(flags: seq<bool>, sent: seq<Digest>, failure: Option<Error>)

  /**
   * Visiting settings row i: skip it if it is not due; otherwise look its
   * label up (which fails on an unknown interval), build its batch from an
   * empty list, and if the batch is not empty send it and, only if the
   * send succeeds, mark all of it.
   */
  function Visit(input: CycleInput, i: nat, flags: seq<bool>, sent: seq<Digest>): (p: Progress)
    requires WellFormed(input) && i < |input.settings|
    ensures |p.flags| == |flags|
    ensures forall k :: 0 <= k < |flags| && flags[k] ==> p.flags[k]
  {
    var setting := input.settings[i];
    if !Eligible(input.lastSent, input.startedAt, setting) then Progress(flags, sent, None)
    else match DigestLabel(input.intervals, setting.interval)
      case None => Progress(flags, sent, Some(IntervalNotFound(setting.interval)))
      case Some(frequency) =>
        var batch := Batch(input.subscriptions, i, flags);
        if |batch| == 0 then Progress(flags, sent, None)
        else if input.sendOk[i] then
          Progress(MarkAll(flags, batch), sent + [Digest(setting.user, frequency, batch)], None)
        else Progress(flags, sent, Some(SmtpError(Digest(setting.user, frequency, batch))))
  }

  predicate InTable(input: CycleInput, order: seq<nat>)
  {
    forall j :: 0 <= j < |order| ==> order[j] < |input.settings|
  }

  /**
   * The cycle over the settings rows listed in `order`, starting from the
   * flags `flags0`; the first error stops it. Flags are only ever set.
   */
  function Run(input: CycleInput, order: seq<nat>, flags0: seq<bool>): (r: Progress)
    requires WellFormed(input) && InTable(input, order)
    ensures |r.flags| == |flags0|
    ensures forall k :: 0 <= k < |flags0| && flags0[k] ==> r.flags[k]
    decreases |order|
  {
    if order == [] then Progress(flags0, [], None)
    else
      var p := Run(input, order[..|order| - 1], flags0);
      if p.failure.Some? then p
      else Visit(input, order[|order| - 1], p.flags, p.sent)
  }

  /** How the delivery loop orders the settings rows. */
  function CycleOrder(input: CycleInput): (order: seq<nat>)
    ensures SortedByUser(input.settings, order)
    ensures InTable(input, order)
  {
    OrderByUser(input.settings, |input.settings|)
  }

  /** All the notifications of a sequence of digests, in order. */
  function Flatten(ds: seq<Digest>): (r: seq<nat>)
    ensures forall j, n :: 0 <= j < |ds| && n in ds[j].notifications ==> n in r
    ensures forall n :: n in r ==> exists j :: 0 <= j < |ds| && n in ds[j].notifications
    decreases |ds|
  {
    if ds == [] then []
    else
      var init := ds[..|ds| - 1];
      var r := Flatten(init) + ds[|ds| - 1].notifications;
      assert forall j :: 0 <= j < |init| ==> init[j] == ds[j];
      r
  }

  /**
   * After the cycle the flags are the initial flags with exactly the
   * notifications of the successfully sent digests set: no other flag
   * changes, and nothing is ever unset.
   */
  lemma {:induction false} FlagsAreExactlySent(input: CycleInput, order: seq<nat>, flags0: seq<bool>)
    requires WellFormed(input) && InTable(input, order)
    ensures var r := Run(input, order, flags0);
            (forall n :: n in Flatten(r.sent) ==> n < |flags0|) &&
            r.flags == MarkAll(flags0, Flatten(r.sent))
    decreases |order|
  {
    if order != [] {
      var init := order[..|order| - 1];
      FlagsAreExactlySent(input, init, flags0);
      var p := Run(input, init, flags0);
      if p.failure.None? {
        var i := order[|order| - 1];
        var setting := input.settings[i];
        var r := Visit(input, i, p.flags, p.sent);
        if |r.sent| > |p.sent| {
          var batch := Batch(input.subscriptions, i, p.flags);
          var frequency := DigestLabel(input.intervals, setting.interval).value;
          var d := Digest(setting.user, frequency, batch);
          assert r == Progress(MarkAll(p.flags, batch), p.sent + [d], None);
          assert (p.sent + [d])[..|p.sent|] == p.sent;
          assert Flatten(r.sent) == Flatten(p.sent) + batch;
          MarkAllAppend(flags0, Flatten(p.sent), batch);
        } else {
          assert r.sent == p.sent && r.flags == p.flags;
        }
      }
    }
  }

  /** Marking two lists one after the other is marking their concatenation. */
  lemma MarkAllAppend(flags: seq<bool>, a: seq<nat>, b: seq<nat>)
    requires forall n :: n in a ==> n < |flags|
    requires forall n :: n in b ==> n < |flags|
    ensures forall n :: n in a + b ==> n < |flags|
    ensures MarkAll(MarkAll(flags, a), b) == MarkAll(flags, a + b)
  {
    var x, y := MarkAll(MarkAll(flags, a), b), MarkAll(flags, a + b);
    assert |x| == |y|;
    forall k | 0 <= k < |flags| ensures x[k] == y[k] {
      assert k in a + b <==> k in a || k in b;
    }
  }

  /**
   * `d` is what a visit of settings row i sends, given the digests sent
   * earlier in the cycle: it goes to the row's user, names the label of the
   * row's interval, and lists, starting from an empty list, exactly the
   * row's batch at the start of the cycle less the notifications already
   * sent in this cycle. It is never empty, and the row was due.
   */
  predicate IsDigestOf(input: CycleInput, flags0: seq<bool>, earlier: seq<Digest>, d: Digest, i: nat)
  {
    i < |input.settings| &&
    var setting := input.settings[i];
    d.user == setting.user &&
    Eligible(input.lastSent, input.startedAt, setting) &&
    DigestLabel(input.intervals, setting.interval) == Some(d.frequency) &&
    d.notifications == Without(Batch(input.subscriptions, i, flags0), Flatten(earlier)) &&
    |d.notifications| > 0
  }

  /** `d` is the digest of one of the rows in `order`. */
  predicate FromRow(input: CycleInput, flags0: seq<bool>, order: seq<nat>, earlier: seq<Digest>, d: Digest)
  {
    exists q :: 0 <= q < |order| && IsDigestOf(input, flags0, earlier, d, order[q])
  }

  /**
   * Every digest the cycle sends, and the digest whose send failed, is the
   * digest of one of the visited settings rows.
   */
  lemma {:induction false} DigestsAreBatches(input: CycleInput, order: seq<nat>, flags0: seq<bool>)
    requires WellFormed(input) && InTable(input, order)
    ensures var r := Run(input, order, flags0);
            forall j :: 0 <= j < |r.sent| ==> FromRow(input, flags0, order, r.sent[..j], r.sent[j])
    ensures var r := Run(input, order, flags0);
            r.failure.Some? && r.failure.value.SmtpError? ==>
              FromRow(input, flags0, order, r.sent, r.failure.value.digest)
  {
    SentDigestsAreBatches(input, order, flags0);
    FailedDigestIsBatch(input, order, flags0);
  }

  lemma SentDigestsAreBatches(input: CycleInput, order: seq<nat>, flags0: seq<bool>)
    requires WellFormed(input) && InTable(input, order)
    ensures var r := Run(input, order, flags0);
            forall j :: 0 <= j < |r.sent| ==> FromRow(input, flags0, order, r.sent[..j], r.sent[j])
  {
    var r := Run(input, order, flags0);
    SentFromRows(input, order, flags0);
    forall j | 0 <= j < |r.sent|
      ensures FromRow(input, flags0, order, r.sent[..j], r.sent[j])
    {
      AllFromRowsAt(input, flags0, order, r.sent, j);
    }
  }

  /** Each digest of `sent` is the digest of a row of `order`, given the digests before it. */
  predicate AllFromRows(input: CycleInput, flags0: seq<bool>, order: seq<nat>, sent: seq<Digest>)
    decreases |sent|
  {
    sent == [] ||
    (AllFromRows(input, flags0, order, sent[..|sent| - 1]) &&
     FromRow(input, flags0, order, sent[..|sent| - 1], sent[|sent| - 1]))
  }

  lemma {:induction false} AllFromRowsAt(input: CycleInput, flags0: seq<bool>, order: seq<nat>, sent: seq<Digest>, j: nat)
    requires AllFromRows(input, flags0, order, sent) && j < |sent|
    ensures FromRow(input, flags0, order, sent[..j], sent[j])
    decreases |sent|
  {
    var init := sent[..|sent| - 1];
    if j < |sent| - 1 {
      AllFromRowsAt(input, flags0, order, init, j);
      assert init[..j] == sent[..j] && init[j] == sent[j];
    }
  }

  lemma {:induction false} AllFromRowsPrefix(input: CycleInput, flags0: seq<bool>, init: seq<nat>, order: seq<nat>, sent: seq<Digest>)
    requires |init| <= |order| && init == order[..|init|]
    requires AllFromRows(input, flags0, init, sent)
    ensures AllFromRows(input, flags0, order, sent)
    decreases |sent|
  {
    if sent != [] {
      AllFromRowsPrefix(input, flags0, init, order, sent[..|sent| - 1]);
      FromRowPrefix(input, flags0, init, order, sent[..|sent| - 1], sent[|sent| - 1]);
    }
  }

  lemma {:induction false} SentFromRows(input: CycleInput, order: seq<nat>, flags0: seq<bool>)
    requires WellFormed(input) && InTable(input, order)
    ensures AllFromRows(input, flags0, order, Run(input, order, flags0).sent)
    decreases |order|
  {
    if order != [] {
      var init := order[..|order| - 1];
      var last := |order| - 1;
      SentFromRows(input, init, flags0);
      var p := Run(input, init, flags0);
      var r := Run(input, order, flags0);
      AllFromRowsPrefix(input, flags0, init, order, p.sent);
      if p.failure.None? {
        assert r == Visit(input, order[last], p.flags, p.sent);
        FlagsAreExactlySent(input, init, flags0);
        VisitDigest(input, flags0, p, order[last]);
        if |r.sent| > |p.sent| {
          var d := r.sent[|p.sent|];
          assert r.sent == p.sent + [d];
          assert r.sent[..|r.sent| - 1] == p.sent;
          assert IsDigestOf(input, flags0, p.sent, d, order[last]);
        }
      }
    }
  }

  lemma {:induction false} FailedDigestIsBatch(input: CycleInput, order: seq<nat>, flags0: seq<bool>)
    requires WellFormed(input) && InTable(input, order)
    ensures var r := Run(input, order, flags0);
            r.failure.Some? && r.failure.value.SmtpError? ==>
              FromRow(input, flags0, order, r.sent, r.failure.value.digest)
    decreases |order|
  {
    if order != [] {
      var init := order[..|order| - 1];
      var last := |order| - 1;
      var p := Run(input, init, flags0);
      var r := Run(input, order, flags0);
      if p.failure.Some? {
        FailedDigestIsBatch(input, init, flags0);
        if p.failure.value.SmtpError? {
          FromRowPrefix(input, flags0, init, order, p.sent, p.failure.value.digest);
        }
      } else {
        assert r == Visit(input, order[last], p.flags, p.sent);
        FlagsAreExactlySent(input, init, flags0);
        VisitDigest(input, flags0, p, order[last]);
        if r.failure.Some? && r.failure.value.SmtpError? {
          assert IsDigestOf(input, flags0, p.sent, r.failure.value.digest, order[last]);
        }
      }
    }
  }

  /** A digest of a row of a prefix of the visit order is a digest of a row of the whole order. */
  lemma FromRowPrefix(input: CycleInput, flags0: seq<bool>, init: seq<nat>, order: seq<nat>, earlier: seq<Digest>, d: Digest)
    requires |init| <= |order| && init == order[..|init|]
    requires FromRow(input, flags0, init, earlier, d)
    ensures FromRow(input, flags0, order, earlier, d)
  {
    var q :| 0 <= q < |init| && IsDigestOf(input, flags0, earlier, d, init[q]);
    assert init[q] == order[q];
  }

  /**
   * The digest one visit sends, or fails to send, is the visited row's
   * digest given what was sent before it; a visit sends at most one digest.
   */
  lemma VisitDigest(input: CycleInput, flags0: seq<bool>, p: Progress, i: nat)
    requires WellFormed(input) && i < |input.settings|
    requires forall n :: n in Flatten(p.sent) ==> n < |flags0|
    requires p.flags == MarkAll(flags0, Flatten(p.sent))
    ensures var v := Visit(input, i, p.flags, p.sent);
            (|v.sent| > |p.sent| ==>
               v.sent == p.sent + [v.sent[|p.sent|]] && IsDigestOf(input, flags0, p.sent, v.sent[|p.sent|], i)) &&
            (|v.sent| <= |p.sent| ==> v.sent == p.sent) &&
            (v.failure.Some? && v.failure.value.SmtpError? ==>
               IsDigestOf(input, flags0, p.sent, v.failure.value.digest, i))
  {
    var setting := input.settings[i];
    var v := Visit(input, i, p.flags, p.sent);
    var frequency := DigestLabel(input.intervals, setting.interval);
    if Eligible(input.lastSent, input.startedAt, setting) && frequency.Some? {
      var batch := Batch(input.subscriptions, i, p.flags);
      BatchAfterMark(input.subscriptions, i, flags0, Flatten(p.sent));
      assert batch == Without(Batch(input.subscriptions, i, flags0), Flatten(p.sent));
      if |batch| > 0 {
        var d := Digest(setting.user, frequency.value, batch);
        assert IsDigestOf(input, flags0, p.sent, d, i);
        if input.sendOk[i] {
          assert v == Progress(MarkAll(p.flags, batch), p.sent + [d], None);
        } else {
          assert v == Progress(p.flags, p.sent, Some(SmtpError(d)));
        }
      } else {
        assert v == Progress(p.flags, p.sent, None);
      }
    } else if Eligible(input.lastSent, input.startedAt, setting) {
      assert v == Progress(p.flags, p.sent, Some(IntervalNotFound(setting.interval)));
    } else {
      assert v == Progress(p.flags, p.sent, None);
    }
  }

  /** No notification is listed in two digests of the same cycle. */
  lemma NoNotificationSentTwice(input: CycleInput, order: seq<nat>, flags0: seq<bool>)
    requires WellFormed(input) && InTable(input, order)
    ensures var r := Run(input, order, flags0);
            forall a, b, n :: 0 <= a < b < |r.sent| && n in r.sent[a].notifications ==> n !in r.sent[b].notifications
  {
    var r := Run(input, order, flags0);
    DigestsAreBatches(input, order, flags0);
    forall a, b, n | 0 <= a < b < |r.sent| && n in r.sent[a].notifications
      ensures n !in r.sent[b].notifications
    {
      assert FromRow(input, flags0, order, r.sent[..b], r.sent[b]);
      var q :| 0 <= q < |order| && IsDigestOf(input, flags0, r.sent[..b], r.sent[b], order[q]);
      assert r.sent[..b][a] == r.sent[a];
      assert n in Flatten(r.sent[..b]);
    }
  }

  /**
   * When the transport raises, none of the notifications of the failed
   * digest is marked: they were all unmarked when it was built and the
   * cycle stops before any marking.
   */
  lemma {:induction false} FailedDigestNotMarked(input: CycleInput, order: seq<nat>, flags0: seq<bool>)
    requires WellFormed(input) && InTable(input, order)
    ensures var r := Run(input, order, flags0);
            r.failure.Some? && r.failure.value.SmtpError? ==>
              forall n :: n in r.failure.value.digest.notifications ==> n < |flags0| && !r.flags[n]
    decreases |order|
  {
    if order != [] {
      FailedDigestNotMarked(input, order[..|order| - 1], flags0);
    }
  }

  /**
   * Digests go out in ascending user order: when the rows are visited in
   * that order, the users of the sent digests never decrease, and the
   * failed digest's user is not below any of them.
   */
  lemma SentInUserOrder(input: CycleInput, order: seq<nat>, flags0: seq<bool>)
    requires WellFormed(input) && InTable(input, order)
    requires SortedByUser(input.settings, order)
    ensures var r := Run(input, order, flags0);
            forall a, b :: 0 <= a < b < |r.sent| ==> r.sent[a].user <= r.sent[b].user
    ensures var r := Run(input, order, flags0);
            r.failure.Some? && r.failure.value.SmtpError? ==>
              forall a :: 0 <= a < |r.sent| ==> r.sent[a].user <= r.failure.value.digest.user
  {
    SentAtPositions(input, order, flags0);
  }

  /**
   * When the rows are visited in user order, the sent digests' users never
   * decrease, none exceeds the user of the last row visited, and the failed
   * digest's user is not below any of them.
   */
  lemma {:induction false} SentAtPositions(input: CycleInput, order: seq<nat>, flags0: seq<bool>)
    requires WellFormed(input) && InTable(input, order)
    requires SortedByUser(input.settings, order)
    ensures var r := Run(input, order, flags0);
            forall a, b :: 0 <= a < b < |r.sent| ==> r.sent[a].user <= r.sent[b].user
    ensures var r := Run(input, order, flags0);
            forall a :: 0 <= a < |r.sent| ==> r.sent[a].user <= input.settings[order[|order| - 1]].user
    ensures var r := Run(input, order, flags0);
            r.failure.Some? && r.failure.value.SmtpError? ==>
              forall a :: 0 <= a < |r.sent| ==> r.sent[a].user <= r.failure.value.digest.user
    decreases |order|
  {
    if order != [] {
      var init := order[..|order| - 1];
      var last := |order| - 1;
      assert SortedByUser(input.settings, init);
      SentAtPositions(input, init, flags0);
      var p := Run(input, init, flags0);
      var top := input.settings[order[last]].user;
      if init != [] {
        assert init[|init| - 1] == order[last - 1];
        assert input.settings[order[last - 1]].user <= top;
      }
      assert forall a :: 0 <= a < |p.sent| ==> p.sent[a].user <= top;
      if p.failure.None? {
        var v := Visit(input, order[last], p.flags, p.sent);
        if |v.sent| > |p.sent| {
          assert v.sent == p.sent + [v.sent[|p.sent|]];
          assert v.sent[|p.sent|].user == top;
        } else {
          assert v.sent == p.sent;
        }
        if v.failure.Some? && v.failure.value.SmtpError? {
          assert v.failure.value.digest.user == top;
        }
      }
    }
  }

  /** An error ends the cycle: visiting further rows after it changes nothing. */
  lemma {:induction false} FailureIsFinal(input: CycleInput, order: seq<nat>, more: seq<nat>, flags0: seq<bool>)
    requires WellFormed(input) && InTable(input, order + more)
    requires InTable(input, order)
    requires Run(input, order, flags0).failure.Some?
    ensures Run(input, order + more, flags0) == Run(input, order, flags0)
    decreases |more|
  {
    if more == [] {
      assert order + more == order;
    } else {
      var init := more[..|more| - 1];
      assert (order + more)[..|order + more| - 1] == order + init;
      FailureIsFinal(input, order, init, flags0);
    }
  }

  /**
   * A cycle that ends without error has delivered, for every visited due
   * row, the latest notification of each of its subscriptions with e-mails
   * enabled.
   */
  lemma {:induction false} CompletedCycleDeliversDue(input: CycleInput, order: seq<nat>, flags0: seq<bool>)
    requires WellFormed(input) && InTable(input, order)
    ensures var r := Run(input, order, flags0);
            r.failure.None? ==>
              forall q, k ::
                (0 <= q < |order| && 0 <= k < |input.subscriptions| &&
                 input.subscriptions[k].setting == order[q] &&
                 input.subscriptions[k].sendEmails && input.subscriptions[k].latest.Some? &&
                 input.subscriptions[k].latest.value < |flags0| &&
                 Eligible(input.lastSent, input.startedAt, input.settings[order[q]])) ==>
                  r.flags[input.subscriptions[k].latest.value]
    decreases |order|
  {
    if order != [] {
      var init := order[..|order| - 1];
      var last := |order| - 1;
      CompletedCycleDeliversDue(input, init, flags0);
      var p := Run(input, init, flags0);
      var r := Run(input, order, flags0);
      if r.failure.None? {
        assert p.failure.None?;
        var i := order[last];
        assert r == Visit(input, i, p.flags, p.sent);
        var subs := input.subscriptions;
        forall q, k | 0 <= q < |order| && 0 <= k < |subs| && subs[k].setting == order[q] &&
                subs[k].sendEmails && subs[k].latest.Some? && subs[k].latest.value < |flags0| &&
                Eligible(input.lastSent, input.startedAt, input.settings[order[q]])
          ensures r.flags[subs[k].latest.value]
        {
          var n := subs[k].latest.value;
          if q < last {
            assert init[q] == order[q];
            assert p.flags[n];
          } else if !p.flags[n] {
            assert Collects(subs[k], i, p.flags);
            BatchMembers(subs, i, p.flags, n);
            assert n in Batch(subs, i, p.flags);
          }
        }
      }
    }
  }

  /**
   * On the first cycle every row is due, so a first cycle that ends without
   * error has delivered the latest notification of every subscription with
   * e-mails enabled, whatever the intervals.
   */
  lemma FirstCycleDeliversAll(input: CycleInput, flags0: seq<bool>)
    requires WellFormed(input) && input.lastSent.None?
    ensures var r := Run(input, CycleOrder(input), flags0);
            r.failure.None? ==>
              forall k ::
                (0 <= k < |input.subscriptions| &&
                 input.subscriptions[k].setting < |input.settings| &&
                 input.subscriptions[k].sendEmails && input.subscriptions[k].latest.Some? &&
                 input.subscriptions[k].latest.value < |flags0|) ==>
                  r.flags[input.subscriptions[k].latest.value]
  {
    var order := CycleOrder(input);
    CompletedCycleDeliversDue(input, order, flags0);
    forall k | 0 <= k < |input.subscriptions| && input.subscriptions[k].setting < |input.settings|
      ensures exists q :: 0 <= q < |order| && order[q] == input.subscriptions[k].setting
    {
      var i := input.subscriptions[k].setting;
      OrderByUserVisitsEachRowOnce(input.settings, i);
      assert i in multiset(order);
      assert i in order;
    }
  }

  /**
   * One user with an hourly interval and four pending notifications: 2 is
   * the latest of an enabled subscription, 3 the latest of a disabled one,
   * and 0 and 1 are earlier notifications that are no subscription's
   * latest. The first cycle sends one digest labelled "Hourly" listing only
   * 2; 0, 1 and 3 stay pending.
   */
  lemma HourlyScenario()
    ensures var input := CycleInput([Setting(7, 60)],
                                    [Subscription(0, true, Some(2)), Subscription(0, false, Some(3))],
                                    [(0, "Instantly"), (60, "Hourly")], None, 0, [true]);
            var r := Run(input, CycleOrder(input), [false, false, false, false]);
            r == Progress([false, false, true, false], [Digest(7, "Hourly", [2])], None)
  {
    var input := CycleInput([Setting(7, 60)],
                            [Subscription(0, true, Some(2)), Subscription(0, false, Some(3))],
                            [(0, "Instantly"), (60, "Hourly")], None, 0, [true]);
    var flags := [false, false, false, false];
    var subs := input.subscriptions;
    assert InsertByUser(input.settings, 0, []) == [0];
    assert CycleOrder(input) == [0];
    assert Run(input, [0], flags) == Visit(input, 0, flags, []);
    assert Eligible(None, 0, Setting(7, 60));
    assert IntervalIndex(input.intervals[1..], 60) == Some(0);
    assert DigestLabel(input.intervals, 60) == Some("Hourly");
    assert subs[..1] == [subs[0]] && subs[..1][..0] == [];
    assert Batch(subs[..1], 0, flags) == [2];
    assert !Collects(subs[1], 0, flags);
    assert Batch(subs, 0, flags) == [2];
    assert MarkAll(flags, []) == flags;
    assert MarkAll(flags, [2]) == [false, false, true, false];
  }
}
