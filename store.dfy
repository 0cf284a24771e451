/**
 * The in-memory notification store the delivery cycle reads and updates:
 * settings rows, subscription rows and the `is_emailed` flag of every
 * notification, with the batching query, the marking of a sent batch and
 * the ordering of settings by user.
 */
module Store {
  import opened Wrappers
  import opened Schedule

  /**
   * One row of the subscriptions table: the settings row it belongs to
   * (an index into the settings table), whether e-mails are enabled, and
   * its latest notification (an index into the notification flags), if any.
   */
  datatype Subscription = Subscription(setting: nat, sendEmails: bool, latest: Option<nat>)

  /**
   * Whether the query for settings row `s` yields this subscription: it
   * belongs to `s`, has e-mails enabled, and its latest notification
   * exists and is not yet e-mailed.
   */
  predicate Collects(sub: Subscription, s: nat, flags: seq<bool>)
  {
    sub.setting == s && sub.sendEmails && sub.latest.Some? &&
    sub.latest.value < |flags| && !flags[sub.latest.value]
  }

  /**
   * The notification list built for settings row `s`: for every
   * subscription the query yields, in table order, its latest notification.
   */
  function Batch(subs: seq<Subscription>, s: nat, flags: seq<bool>): (b: seq<nat>)
    ensures forall n :: n in b ==> n < |flags| && !flags[n]
    decreases |subs|
  {
    if subs == [] then []
    else
      var b := Batch(subs[..|subs| - 1], s, flags);
      var sub := subs[|subs| - 1];
      if Collects(sub, s, flags) then b + [sub.latest.value] else b
  }

  /**
   * A notification is in the batch iff it is the latest notification of a
   * subscription of that settings row that has e-mails enabled and whose
   * latest is not yet e-mailed. Nothing else is collected: neither a
   * notification of a subscription with e-mails disabled nor an earlier
   * notification that is not some subscription's latest.
   */
  lemma {:induction false} BatchMembers(subs: seq<Subscription>, s: nat, flags: seq<bool>, n: nat)
    ensures n in Batch(subs, s, flags) <==>
            exists k :: 0 <= k < |subs| && Collects(subs[k], s, flags) && subs[k].latest == Some(n)
    decreases |subs|
  {
    if subs != [] {
      var init := subs[..|subs| - 1];
      BatchMembers(init, s, flags, n);
      if n in Batch(subs, s, flags) && n !in Batch(init, s, flags) {
        assert Collects(subs[|subs| - 1], s, flags) && subs[|subs| - 1].latest == Some(n);
      }
      if exists k :: 0 <= k < |subs| && Collects(subs[k], s, flags) && subs[k].latest == Some(n) {
        var k :| 0 <= k < |subs| && Collects(subs[k], s, flags) && subs[k].latest == Some(n);
        if k < |subs| - 1 {
          assert init[k] == subs[k];
        }
      }
    }
  }

  /** `b` with every element of `m` removed, order kept. */
  function Without(b: seq<nat>, m: seq<nat>): (r: seq<nat>)
    ensures forall n :: n in r <==> n in b && n !in m
    decreases |b|
  {
    if b == [] then []
    else Without(b[..|b| - 1], m) + (if b[|b| - 1] in m then [] else [b[|b| - 1]])
  }

  /**
   * The flags after `is_emailed = True` has been assigned, one at a time, to
   * every notification of `batch`: exactly those flags become true and no
   * other flag changes.
   */
  function MarkAll(flags: seq<bool>, batch: seq<nat>): (r: seq<bool>)
    requires forall n :: n in batch ==> n < |flags|
    ensures |r| == |flags|
    ensures forall k :: 0 <= k < |flags| ==> (r[k] <==> flags[k] || k in batch)
    decreases |batch|
  {
    if batch == [] then flags
    else
      var init, last := batch[..|batch| - 1], batch[|batch| - 1];
      assert batch == init + [last];
      assert forall n :: n in init ==> n in batch;
      assert last in batch;
      MarkAll(flags, init)[last := true]
  }

  /**
   * Marking a batch removes from the filter exactly the subscriptions whose
   * latest notification is in the batch.
   */
  lemma CollectsAfterMark(sub: Subscription, s: nat, flags: seq<bool>, m: seq<nat>)
    requires forall n :: n in m ==> n < |flags|
    ensures Collects(sub, s, MarkAll(flags, m)) <==> Collects(sub, s, flags) && sub.latest.value !in m
  {
  }

  /**
   * After part of a batch has been marked (a send whose marking stopped
   * half-way), querying again yields exactly the notifications that are
   * still unmarked, in the same order: the marked ones are not re-sent.
   */
  lemma {:induction false} BatchAfterMark(subs: seq<Subscription>, s: nat, flags: seq<bool>, m: seq<nat>)
    requires forall n :: n in m ==> n < |flags|
    ensures Batch(subs, s, MarkAll(flags, m)) == Without(Batch(subs, s, flags), m)
    decreases |subs|
  {
    if subs != [] {
      var init := subs[..|subs| - 1];
      BatchAfterMark(init, s, flags, m);
      var sub := subs[|subs| - 1];
      var marked := MarkAll(flags, m);
      var b := Batch(init, s, flags);
      CollectsAfterMark(sub, s, flags, m);
      if Collects(sub, s, flags) {
        var n := sub.latest.value;
        var bn := b + [n];
        assert bn[..|bn| - 1] == b;
        assert Without(bn, m) == Without(b, m) + (if n in m then [] else [n]);
      }
    }
  }

  /** `0, 1, ..., n - 1`, the positions of a table with n rows. */
  function Range(n: nat): (r: seq<nat>)
    ensures |r| == n
    ensures forall i :: 0 <= i < n ==> r[i] == i
  {
    if n == 0 then [] else Range(n - 1) + [n - 1]
  }

  /** `order` lists positions of `settings` in non-decreasing order of user. */
  predicate SortedByUser(settings: seq<Setting>, order: seq<nat>)
  {
    (forall j :: 0 <= j < |order| ==> order[j] < |settings|) &&
    forall a, b :: 0 <= a < b < |order| ==> settings[order[a]].user <= settings[order[b]].user
  }

  /** Insert position `i` after every entry whose user is not greater than that of `i`. */
  function InsertByUser(settings: seq<Setting>, i: nat, order: seq<nat>): (r: seq<nat>)
    requires i < |settings|
    requires forall x :: x in order ==> x < |settings|
    ensures multiset(r) == multiset(order) + multiset{i}
  {
    if order == [] then [i]
    else
      assert order[0] in order;
      assert forall x :: x in order[1..] ==> x in order;
      if settings[i].user < settings[order[0]].user then [i] + order
      else
        assert order == [order[0]] + order[1..];
        [order[0]] + InsertByUser(settings, i, order[1..])
  }

  /** Inserting into a sorted ordering keeps it sorted. */
  lemma {:induction false} InsertByUserSorted(settings: seq<Setting>, i: nat, order: seq<nat>)
    requires i < |settings|
    requires SortedByUser(settings, order)
    ensures SortedByUser(settings, InsertByUser(settings, i, order))
  {
    if order == [] {
    } else if settings[i].user < settings[order[0]].user {
      HeadBound(settings, order);
      ConsSorted(settings, i, order);
    } else {
      var tail := order[1..];
      assert SortedByUser(settings, tail);
      InsertByUserSorted(settings, i, tail);
      var rest := InsertByUser(settings, i, tail);
      HeadBound(settings, order);
      forall x | x in rest
        ensures x < |settings| && settings[order[0]].user <= settings[x].user
      {
        assert x in multiset(rest);
        if x != i {
          assert x in multiset(tail);
        }
      }
      ConsSorted(settings, order[0], rest);
    }
  }

  /** The head of a sorted ordering has the least user. */
  lemma HeadBound(settings: seq<Setting>, order: seq<nat>)
    requires SortedByUser(settings, order) && order != []
    ensures forall x :: x in order ==> x < |settings| && settings[order[0]].user <= settings[x].user
  {
    forall x | x in order
      ensures x < |settings| && settings[order[0]].user <= settings[x].user
    {
      var j :| 0 <= j < |order| && order[j] == x;
      if j > 0 {
        assert settings[order[0]].user <= settings[order[j]].user;
      }
    }
  }

  /** Putting a row with the least user in front of a sorted ordering keeps it sorted. */
  lemma ConsSorted(settings: seq<Setting>, h: nat, rest: seq<nat>)
    requires h < |settings| && SortedByUser(settings, rest)
    requires forall x :: x in rest ==> x < |settings| && settings[h].user <= settings[x].user
    ensures SortedByUser(settings, [h] + rest)
  {
    var r := [h] + rest;
    forall a, b | 0 <= a < b < |r|
      ensures settings[r[a]].user <= settings[r[b]].user
    {
      assert r[b] == rest[b - 1];
      if a > 0 {
        assert r[a] == rest[a - 1];
      } else {
        assert rest[b - 1] in rest;
      }
    }
  }

  /**
   * The settings rows in ascending user order (`order_by('user')`): a
   * sorted rearrangement of the first n positions. Rows with the same user
   * keep their table order.
   */
  function OrderByUser(settings: seq<Setting>, n: nat): (r: seq<nat>)
    requires n <= |settings|
    ensures SortedByUser(settings, r)
    ensures multiset(r) == multiset(Range(n))
  {
    if n == 0 then []
    else
      assert Range(n) == Range(n - 1) + [n - 1];
      var prev := OrderByUser(settings, n - 1);
      InsertByUserSorted(settings, n - 1, prev);
      InsertByUser(settings, n - 1, prev)
  }

  /** Every settings row appears in the user ordering, exactly once. */
  lemma OrderByUserVisitsEachRowOnce(settings: seq<Setting>, i: nat)
    requires i < |settings|
    ensures multiset(OrderByUser(settings, |settings|))[i] == 1
  {
    var r := Range(|settings|);
    assert r[i] == i;
    RangeCount(|settings|, i);
  }

  lemma {:induction false} RangeCount(n: nat, i: nat)
    requires i < n
    ensures multiset(Range(n))[i] == 1
  {
    var prev := Range(n - 1);
    assert Range(n) == prev + [n - 1];
    assert multiset(Range(n)) == multiset(prev) + multiset{n - 1};
    if i < n - 1 {
      RangeCount(n - 1, i);
    } else {
      assert forall k :: 0 <= k < |prev| ==> prev[k] != i;
      assert i !in prev;
      assert multiset(prev)[i] == 0;
    }
  }
}
