# Digest mailer delivery cycle (django-nyt `notifymail`)

This project models one iteration of the delivery loop of the `notifymail`
management command of django-nyt (`Command.send_loop`), and proves
properties of it. The loop decides which users' notification settings are
due, builds one digest per due settings row from the latest notification of
each of that row's e-mail-enabled subscriptions, sends the digest, and marks
its notifications as e-mailed only after the send succeeded. After each cycle
it computes how long to sleep.

The ORM, templates and SMTP are replaced by an in-memory store and a send
oracle:

- **Store.** The settings rows are `Schedule.Setting(user, interval)`. The
  subscription rows are `Store.Subscription(setting, sendEmails, latest)`.
  The notifications are represented by their `is_emailed` flags, a
  `seq<bool>` field of the class `NotifyMail.DigestMailer` that the cycle
  reassigns. A subscription whose `latest` is null is never collected, which
  matches the join that the `latest__is_emailed=False` filter implies.
- **Clock.** Clock readings are integers counting microseconds. The
  `seconds` attribute of a time difference is `(delta / 10^6) % 86400`. This
  is exact for negative differences too, because for a positive divisor
  Dafny's `/` and `%` agree with Python's floor division.
- **Transport.** Opening the connection succeeds or fails (`openOk`).
  `sendOk[i]` says whether sending the digest of settings row `i` succeeds.
  Each row is sent at most once per cycle, so one answer per row is enough.
- **Configuration.** `INTERVALS` and `NOTIFY_SLEEP_TIME` are values of
  `NotifyMail.Config`. The settings module that defines them is not part of
  this model, so their concrete values are not fixed here.

Layout:

- `schedule.dfy`: the arithmetic. It has the seconds component, the hour
  threshold, eligibility, the label lookup, and the minimum interval and
  sleep formula.
- `store.dfy`: the batching query, the marking of a batch, and the ordering
  of settings rows by user. The ordering is a stable insertion sort, proved
  sorted and a permutation.
- `cycle.dfy`: the cycle as a function (`Visit` for one row, `Run` for the
  rows in order) and the lemmas about it.
- `notifymail.dfy`: the class `DigestMailer`. Its methods `CollectBatch`,
  `MarkEmailed` and `DeliverAll` have the inner loops of the source and are
  proved against those functions. `RunCycle` is one iteration of the outer
  loop, and `Serve` has that `while True` loop, over a bounded sequence of
  rounds. Each cycle starts from the state the previous one left, as the
  function `CycleEffect` describes.

The code behaves as follows, which may be unexpected:

- A batch holds one notification per subscription, its `latest`. It does
  not hold every pending notification of the user. In `Cycle.HourlyScenario`,
  pending notifications that are no subscription's latest are not sent.
- The gate of a later cycle measures from the END of the previous cycle.
  `last_sent` is read from the clock after the connection is closed.
- The gate uses only the seconds component of the time difference, so
  whole days are dropped. The threshold is therefore always 0..23, and a
  setting whose interval is 24 or more is due only on the first cycle
  (`Schedule.LongIntervalOnlyOnFirstCycle`).

## Model

| member | source | states |
|---|---|---|
| `Schedule.Seconds` | django_nyt/management/commands/notifymail.py:127-128 | the seconds component of a time difference lies in 0..86399 and, for a difference under one day, is the number of whole seconds |
| `Schedule.SecondsIgnoresWholeDays` | django_nyt/management/commands/notifymail.py:127-128 | adding whole days to a difference leaves its seconds component unchanged |
| `Schedule.Threshold` | django_nyt/management/commands/notifymail.py:126-129 | the gate value is in 0..23 and is the number of whole hours in the seconds component |
| `Schedule.Eligible` | django_nyt/management/commands/notifymail.py:124-132 | every setting is due on the first cycle; on a later cycle one with interval 0 or less is always due, and no setting with interval 24 or more is due |
| `Schedule.EligibleWithinADay` | django_nyt/management/commands/notifymail.py:124-130 | less than a day after the last cycle, a setting is due iff its interval, read as hours, has fully elapsed |
| `Schedule.LongIntervalOnlyOnFirstCycle` | django_nyt/management/commands/notifymail.py:124-132 | every setting is due on the first cycle; one with interval 24 or more is due on no later cycle |
| `Schedule.IntervalIndex` | django_nyt/management/commands/notifymail.py:141-142 | the result is the first position whose interval matches, or none when no position matches |
| `Schedule.DigestLabel` | django_nyt/management/commands/notifymail.py:139-143 | the label is the second component of the first pair with that interval; the lookup fails iff no pair has it |
| `Schedule.MinInterval` | django_nyt/management/commands/notifymail.py:166 | the result is a configured interval and no configured interval is smaller |
| `Schedule.SleepTime` | django_nyt/management/commands/notifymail.py:164-170 | the sleep is never negative, never below the idle floor or `(min - elapsed) * 60`, and equals one of the three |
| `Store.Batch` | django_nyt/management/commands/notifymail.py:144-148 | the predicate `Collects` is the subscription filter of the query; every collected notification exists and is not yet e-mailed |
| `Store.BatchMembers` | django_nyt/management/commands/notifymail.py:144-148 | a notification is collected iff it is the latest of a subscription of that row with e-mails enabled and is not e-mailed; disabled subscriptions contribute nothing |
| `Store.CollectsAfterMark` | django_nyt/management/commands/notifymail.py:144-154 | after a batch is marked, a subscription passes the filter iff it passed before and its latest notification is not in the batch |
| `Store.MarkAll` | django_nyt/management/commands/notifymail.py:152-154 | after marking, a flag is set iff it was set before or its notification is in the batch; the length is unchanged |
| `Store.BatchAfterMark` | django_nyt/management/commands/notifymail.py:144-154 | after part of a batch is marked, the query yields exactly the unmarked rest, in the same order |
| `Store.InsertByUser` | django_nyt/management/commands/notifymail.py:130-132 | inserting a row adds exactly that row to the ordering |
| `Store.InsertByUserSorted` | django_nyt/management/commands/notifymail.py:130-132 | inserting a row into an ordering sorted by user keeps it sorted |
| `Store.OrderByUser` | django_nyt/management/commands/notifymail.py:130-132 | the visit order is sorted by user and is a permutation of the settings rows |
| `Store.OrderByUserVisitsEachRowOnce` | django_nyt/management/commands/notifymail.py:132 | every settings row occurs exactly once in the visit order |
| `Cycle.CycleOrder` | django_nyt/management/commands/notifymail.py:130-132 | the cycle visits rows of the table in ascending user order |
| `Cycle.Visit` | django_nyt/management/commands/notifymail.py:134-159 | visiting one row keeps the number of flags and never unsets a flag |
| `Cycle.Run` | django_nyt/management/commands/notifymail.py:134-159 | the whole cycle keeps the number of flags and never unsets a flag |
| `Cycle.FlagsAreExactlySent` | django_nyt/management/commands/notifymail.py:149-154 | the final flags are the initial flags with exactly the notifications of the successfully sent digests set |
| `Cycle.DigestsAreBatches` | django_nyt/management/commands/notifymail.py:134-151 | each digest, sent or failed, belongs to a due row of the visit order; it has that row's user and label, is non-empty, and is exactly the row's batch at the cycle start minus what was already sent this cycle |
| `Cycle.NoNotificationSentTwice` | django_nyt/management/commands/notifymail.py:146-154 | no notification is listed in two digests of one cycle |
| `Cycle.FailedDigestNotMarked` | django_nyt/management/commands/notifymail.py:150-159 | when the send raises, no notification of the failed digest is e-mailed afterwards |
| `Cycle.SentInUserOrder` | django_nyt/management/commands/notifymail.py:130-136 | digests go out in non-decreasing user order, and the failed digest's user is not below any sent one |
| `Cycle.FailureIsFinal` | django_nyt/management/commands/notifymail.py:155-159 | once an error occurred, visiting further rows changes nothing |
| `Cycle.CompletedCycleDeliversDue` | django_nyt/management/commands/notifymail.py:124-154 | a cycle without error leaves, for every visited due row, the latest notification of each e-mail-enabled subscription e-mailed |
| `Cycle.FirstCycleDeliversAll` | django_nyt/management/commands/notifymail.py:131-154 | a first cycle without error leaves the latest notification of every e-mail-enabled subscription e-mailed, whatever the intervals |
| `Cycle.HourlyScenario` | django_nyt/management/commands/notifymail.py:134-154 | for one hourly user, only the latest of the enabled subscription is sent, labelled "Hourly", and only it is marked; earlier notifications and a disabled subscription's latest stay pending |
| `NotifyMail.DigestMailer.constructor` | django_nyt/management/commands/notifymail.py:99-103 | the loop starts with no previous cycle and the connection closed |
| `NotifyMail.DigestMailer.CollectBatch` | django_nyt/management/commands/notifymail.py:136-148 | the list built by the loop, starting empty, is the batch of the row |
| `NotifyMail.DigestMailer.MarkEmailed` | django_nyt/management/commands/notifymail.py:152-154 | the flag loop sets exactly the batch's flags |
| `NotifyMail.DigestMailer.VisitRow` | django_nyt/management/commands/notifymail.py:134-159 | one pass of the loop over the due settings changes the flags and the sent digests exactly as `Cycle.Visit` describes |
| `NotifyMail.DigestMailer.DeliverAll` | django_nyt/management/commands/notifymail.py:134-159 | the loop over the settings rows leaves the flags and the sent digests of `Cycle.Run` in the given order, and stops with the first error |
| `NotifyMail.DigestMailer.RunCycle` | django_nyt/management/commands/notifymail.py:113-170 | a failed open changes nothing. Otherwise the new flags and the sent digests are those of `Run` in user order. An error keeps `last_sent` and leaves the connection open. A completed cycle closes the connection, sets `last_sent` to the end time, and returns the sleep, or stops when no interval is configured |
| `NotifyMail.CycleEffect` | django_nyt/management/commands/notifymail.py:112-170 | one cycle's effect on the loop state: a failed open changes nothing; a cycle that sleeps has set `last_sent` to its end time and closed the connection; flags are only ever set |
| `NotifyMail.DigestMailer.Step` | django_nyt/management/commands/notifymail.py:112-170 | one cycle's outcome and new state are `CycleEffect` of the state before it |
| `NotifyMail.DigestMailer.Serve` | django_nyt/management/commands/notifymail.py:99-170 | the ghost `states` start from the state before the loop and end at the final state; each cycle's outcome and following state are its `CycleEffect` from the state the previous cycle left, so each gate measures from the previous completed cycle's end; cycles run until the first one that stops, and every earlier one slept; when the last cycle slept, `last_sent` is its end time and the connection is closed; flags are never unset |

## Left out

- `handle()` is not modelled: language activation, logger setup, the `SEND_EMAILS` early exit, forking, the PID file, `sys.exit` and the `KeyboardInterrupt` handler. These are process and command-line plumbing.
- `_send_user_notifications` is not modelled: template rendering, the subject translation, `EmailMessage` and the SMTP transport are foreign library calls. They are replaced by the per-row answer `sendOk`. Only `SMTPException` is modelled; any other exception the send might raise is not.
- Logging is not modelled, and neither is the `site` entry of the digest context (`Site.objects.get_current()`). Neither affects which notifications are sent or marked.
- `mail.get_connection()` failing before the first cycle is not modelled separately. Failing to open the connection at the start of a cycle is modelled (`ConnectionError`).
- `datetime.now()` and `time.sleep` are inputs and outputs: the clock readings are parameters and the pause is returned, not performed. `Serve` does not require the next cycle to start after the pause.
- Which subscription a notification belongs to is not modelled: a notification that is no subscription's `latest` is never collected, whatever its owner.
- `n.save()` is modelled as setting the flag. A crash part-way through the marking loop is not a cycle outcome of the model. What the next query then yields is stated by `Store.BatchAfterMark`.
- The ORM model definitions are not part of this model. Settings rows, subscriptions and notification flags are plain sequences, and subscriptions are visited in table order. When two settings rows have the same user, they keep table order; real databases leave that order unspecified.
- `django_nyt/decorators.py` is not modelled. `login_required_ajax` and `json_view` are thin wrappers over Django authentication, `HttpResponse` and `json.dumps`. `disable_notify` only toggles a process-global flag around a call.
- `NotifyMail.DigestMailer.Serve`: the store does not change between cycles. No notifications or subscriptions are added while the loop runs. When the loop starts with no previous cycle, as the constructor leaves it, a first cycle that completes has sent every pending latest notification (`Cycle.FirstCycleDeliversAll`), so every later cycle finds empty batches and sends nothing.
- The `max` in the sleep formula is stated by its value, not by which argument Python returns among equal ones. For integers the two are the same.
