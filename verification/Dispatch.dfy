/** The dispatcher: route, decide, send, record (alerts.py). */
module Dispatch {
  import opened Prelude
  import opened Messages
  import opened Outbox

  /** What one channel is to send: what is due, and what quiet hours held. */
  datatype Planned = Planned(key: ChannelKey, due: seq<nat>, held: seq<nat>)

  /** One message that was handed to a channel, and the answer. */
  datatype Sending = Sending(key: ChannelKey, ids: seq<nat>, result: SendResult)

  /** How each message would be answered, whatever the network does. */
  type Answers = (ChannelKey, seq<nat>) -> SendResult

  // ------------------------------------------------------------------------- routing

  /** Whether a channel gets an alert. */
  predicate Takes(s: Settings, row: Notification, key: ChannelKey) {
    s.enabled && key in s.active && GroupOf(row.kind, row.tone) in s.active[key]
  }

  predicate HasTaker(s: Settings, row: Notification) {
    exists key: ChannelKey :: Takes(s, row, key)
  }

  predicate OnChannel(ds: Deliveries, n: nat, key: ChannelKey) {
    exists d :: 0 <= d < |ds| && ds[d].notification == n && ds[d].channel == key
  }

  function NewDelivery(row: Notification, n: nat, key: ChannelKey): Delivery {
    Delivery(n, key, row.status, row.attempts, row.nextAt, None)
  }

  function RoutedRow(s: Settings, row: Notification): Notification {
    if HasTaker(s, row) then row else row.(status := Dropped)
  }

  // ------------------------------------------------------------------------- deciding

  /** Picked for this dispatch: due or held, within the limits. */
  predicate Chosen(ns: Notifications, ds: Deliveries, now: int, d: nat)
    requires d < |ds|
  {
    d in DueOn(ns, ds, ds[d].channel, now) || d in HeldOn(ns, ds, ds[d].channel)
  }

  /** What becomes of a delivery before anything is sent. */
  function Verdict(s: Settings, row: Delivery, chosen: bool): Delivery {
    if !chosen then row
    else if !s.enabled || row.channel !in s.active then row.(status := Dropped)
    else if s.quiet then row.(status := Held)
    else row
  }

  predicate Goes(s: Settings, key: ChannelKey) {
    s.enabled && key in s.active && !s.quiet
  }

  function PlanFor(s: Settings, ns: Notifications, ds: Deliveries, now: int, key: ChannelKey): seq<Planned> {
    var due, held := DueOn(ns, ds, key, now), HeldOn(ns, ds, key);
    if (due == [] && held == []) || !Goes(s, key) then [] else [Planned(key, due, held)]
  }

  function Plan(s: Settings, ns: Notifications, ds: Deliveries, now: int, kinds: seq<ChannelKey>): seq<Planned> {
    if kinds == [] then []
    else Plan(s, ns, ds, now, kinds[..|kinds| - 1]) + PlanFor(s, ns, ds, now, kinds[|kinds| - 1])
  }

  // -------------------------------------------------------------------------- sending

  /** Messages go out one by one until one is rate limited. */
  function SendUntil(key: ChannelKey, ms: seq<seq<nat>>, answers: Answers): seq<Sending> {
    if ms == [] then []
    else
      var r := answers(key, ms[0]);
      [Sending(key, ms[0], r)] + if r.retryAfter.Some? then [] else SendUntil(key, ms[1..], answers)
  }

  function ChannelLog(p: Planned, answers: Answers): seq<Sending> {
    SendUntil(p.key, MessagesOf(p.due, p.held, Combines(p.key)), answers)
  }

  function SendLog(plan: seq<Planned>, answers: Answers): seq<Sending> {
    if plan == [] then []
    else SendLog(plan[..|plan| - 1], answers) + ChannelLog(plan[|plan| - 1], answers)
  }

  // ------------------------------------------------------------------------ recording

  /** A delivery after one attempt. */
  function Attempted(row: Delivery, r: SendResult, at: int): Delivery {
    var tried := row.(attempts := row.attempts + 1);
    if r.ok then tried.(status := Sent, sentAt := Some(at))
    else if r.permanent || tried.attempts >= MAX_ATTEMPTS then tried.(status := Failed)
    else tried.(status := Pending,
                nextAt := at + r.retryAfter.GetOr(BACKOFF_SECONDS[Min(tried.attempts - 1, |BACKOFF_SECONDS| - 1)]))
  }

  /** A plain failure: not answered, or answered with an error that may pass. */
  predicate PlainFailure(r: SendResult) {
    !r.ok && !r.permanent && r.retryAfter.None?
  }

  function AttemptedAll(row: Delivery, tries: seq<(SendResult, int)>): Delivery {
    if tries == [] then row
    else Attempted(AttemptedAll(row, tries[..|tries| - 1]), tries[|tries| - 1].0, tries[|tries| - 1].1)
  }

  /** A delivery that keeps failing waits half a minute, two, ten and thirty
      minutes after its tries, and is given up after the fifth. */
  lemma {:induction false} GivenUpAfterFive(row: Delivery, tries: seq<(SendResult, int)>)
    requires row.attempts == 0 && 0 < |tries| <= MAX_ATTEMPTS
    requires forall i :: 0 <= i < |tries| ==> PlainFailure(tries[i].0)
    ensures var after, at := AttemptedAll(row, tries), tries[|tries| - 1].1;
            && after.attempts == |tries| && after.sentAt == row.sentAt
            && (after.status == Failed <==> |tries| == 5)
            && (|tries| == 1 ==> after.status == Pending && after.nextAt == at + 30)
            && (|tries| == 2 ==> after.status == Pending && after.nextAt == at + 120)
            && (|tries| == 3 ==> after.status == Pending && after.nextAt == at + 600)
            && (|tries| == 4 ==> after.status == Pending && after.nextAt == at + 1800)
    decreases |tries|
  {
    if |tries| > 1 {
      GivenUpAfterFive(row, tries[..|tries| - 1]);
    } else {
      assert tries[..0] == [];
    }
  }

  /** Sent exactly when the channel said yes; given up at once when it said never;
      and put off for as long as it asked when it asked. */
  lemma AnswerDecides(row: Delivery, r: SendResult, at: int)
    ensures var after := Attempted(row, r, at);
            && (after.status == Sent <==> r.ok) && (r.ok ==> after.sentAt == Some(at))
            && (!r.ok && r.permanent ==> after.status == Failed)
            && (!r.ok && !r.permanent && row.attempts + 1 < MAX_ATTEMPTS && r.retryAfter.Some? ==>
                  after.status == Pending && after.nextAt == at + r.retryAfter.value)
  {
  }

  /** The answer to the message a delivery went out in. */
  function AnswerFor(log: seq<Sending>, d: nat): Option<SendResult> {
    if log == [] then None
    else if d in log[|log| - 1].ids then Some(log[|log| - 1].result)
    else AnswerFor(log[..|log| - 1], d)
  }

  function LimitFor(log: seq<Sending>, key: ChannelKey): Option<int> {
    if log == [] then None
    else
      var last := log[|log| - 1];
      if last.key == key && last.result.retryAfter.Some? then last.result.retryAfter
      else LimitFor(log[..|log| - 1], key)
  }

  /** A rate limit of no seconds is taken for five. */
  function LimitSeconds(wait: int): int {
    if wait == 0 then 5 else wait
  }

  predicate PlannedDue(plan: seq<Planned>, key: ChannelKey, d: nat) {
    exists i :: 0 <= i < |plan| && plan[i].key == key && d in plan[i].due
  }

  /** A delivery after a dispatch: tried, made to wait with its rate-limited
      channel, or as it was. */
  function Recorded(row: Delivery, d: nat, plan: seq<Planned>, log: seq<Sending>, at: int): Delivery {
    var answer, limit := AnswerFor(log, d), LimitFor(log, row.channel);
    if answer.Some? then Attempted(row, answer.value, at)
    else if PlannedDue(plan, row.channel, d) && limit.Some? then row.(nextAt := at + LimitSeconds(limit.value))
    else row
  }

  /** A plan the outbox can carry out: every delivery in it is still open, on the
      channel it is planned for, and there only once. */
  ghost predicate PlanFits(plan: seq<Planned>, ds: Deliveries) {
    && (forall i, j :: 0 <= i < j < |plan| ==> plan[i].key != plan[j].key)
    && (forall p :: p in plan ==> PlannedFits(p, ds))
  }

  ghost predicate PlannedFits(p: Planned, ds: Deliveries) {
    Distinct(p.held + p.due) && OpenOn(p.held + p.due, p.key, ds)
  }

  ghost predicate OpenOn(ids: seq<nat>, key: ChannelKey, ds: Deliveries) {
    forall i :: 0 <= i < |ids| ==> ids[i] < |ds| && ds[ids[i]].channel == key && IsOpen(ds[ids[i]].status)
  }

  /** A log in which no delivery is tried twice, and only open ones are tried. */
  ghost predicate LogFits(log: seq<Sending>, ds: Deliveries) {
    && (forall i, j :: 0 <= i < j < |log| ==> Apart(log[i].ids, log[j].ids))
    && (forall i :: 0 <= i < |log| ==> SendingFits(log[i], ds))
  }

  ghost predicate Apart(a: seq<nat>, b: seq<nat>) {
    forall d :: d in a ==> d !in b
  }

  ghost predicate SendingFits(x: Sending, ds: Deliveries) {
    Distinct(x.ids) && OpenOn(x.ids, x.key, ds)
  }

  // ------------------------------------------------------------- what a channel's log is

  function IdsOf(log: seq<Sending>): seq<nat> {
    if log == [] then [] else log[0].ids + IdsOf(log[1..])
  }

  /** The deliveries a channel tries are the first of those it was to send, in
      order, and all of them unless it was rate limited. */
  lemma {:induction false} SendUntilIsPrefix(key: ChannelKey, ms: seq<seq<nat>>, answers: Answers)
    ensures IdsOf(SendUntil(key, ms, answers)) <= Flatten(ms)
    ensures LimitFor(SendUntil(key, ms, answers), key).None? ==> IdsOf(SendUntil(key, ms, answers)) == Flatten(ms)
    ensures forall x :: x in SendUntil(key, ms, answers) ==> x.key == key
    decreases |ms|
  {
    if ms != [] {
      var r := answers(key, ms[0]);
      var log := SendUntil(key, ms, answers);
      if r.retryAfter.Some? {
        assert log == [Sending(key, ms[0], r)];
        assert log[1..] == [];
      } else {
        var rest := SendUntil(key, ms[1..], answers);
        SendUntilIsPrefix(key, ms[1..], answers);
        assert log == [Sending(key, ms[0], r)] + rest && log[1..] == rest;
        LimitCons(Sending(key, ms[0], r), rest);
      }
    }
  }

  lemma {:induction false} LimitCons(x: Sending, rest: seq<Sending>)
    requires x.result.retryAfter.None?
    ensures LimitFor([x] + rest, x.key) == LimitFor(rest, x.key)
    decreases |rest|
  {
    if rest != [] {
      LimitCons(x, rest[..|rest| - 1]);
      assert ([x] + rest)[..|rest|] == [x] + rest[..|rest| - 1];
    } else {
      assert ([x] + rest)[..0] == [];
    }
  }

  lemma {:induction false} DistinctLogFits(log: seq<Sending>, key: ChannelKey, ds: Deliveries)
    requires Distinct(IdsOf(log)) && OpenOn(IdsOf(log), key, ds)
    requires forall i :: 0 <= i < |log| ==> log[i].key == key
    ensures LogFits(log, ds)
    decreases |log|
  {
    if log != [] {
      var first, rest := log[0], log[1..];
      var n := |first.ids|;
      assert IdsOf(log) == first.ids + IdsOf(rest);
      assert IdsOf(log)[..n] == first.ids && IdsOf(log)[n..] == IdsOf(rest);
      DistinctLogFits(rest, key, ds);
      assert SendingFits(first, ds);
      forall j | 0 < j < |log| ensures Apart(first.ids, log[j].ids) {
        forall d | d in first.ids ensures d !in log[j].ids {
          if d in log[j].ids {
            IdsOfHas(rest, j - 1, d);
          }
        }
      }
    }
  }

  lemma {:induction false} IdsOfHas(log: seq<Sending>, i: nat, d: nat)
    requires i < |log| && d in log[i].ids
    ensures d in IdsOf(log)
    decreases |log|
  {
    if i > 0 {
      IdsOfHas(log[1..], i - 1, d);
    }
  }

  lemma {:induction false} ChannelLogFits(p: Planned, ds: Deliveries, answers: Answers)
    requires PlannedFits(p, ds)
    ensures LogFits(ChannelLog(p, answers), ds)
    ensures forall x :: x in ChannelLog(p, answers) ==> x.key == p.key
  {
    var log, all := ChannelLog(p, answers), p.held + p.due;
    InExactlyOneMessage(p.due, p.held, Combines(p.key));
    SendUntilIsPrefix(p.key, MessagesOf(p.due, p.held, Combines(p.key)), answers);
    assert IdsOf(log) == all[..|IdsOf(log)|];
    assert forall i :: 0 <= i < |log| ==> log[i] in log;
    DistinctLogFits(log, p.key, ds);
  }

  predicate InPlan(plan: seq<Planned>, key: ChannelKey) {
    exists i :: 0 <= i < |plan| && plan[i].key == key
  }

  lemma {:induction false} KeysInPlan(plan: seq<Planned>, answers: Answers, x: Sending)
    requires x in SendLog(plan, answers)
    ensures InPlan(plan, x.key)
    decreases |plan|
  {
    var before, p := plan[..|plan| - 1], plan[|plan| - 1];
    if x in SendLog(before, answers) {
      KeysInPlan(before, answers, x);
      var i :| 0 <= i < |before| && before[i].key == x.key;
      assert plan[i].key == x.key;
    } else {
      SendUntilIsPrefix(p.key, MessagesOf(p.due, p.held, Combines(p.key)), answers);
      assert plan[|plan| - 1].key == x.key;
    }
  }

  /** No dispatch tries a delivery twice, and none that is settled at all. */
  lemma {:induction false} TriedAtMostOnce(plan: seq<Planned>, ds: Deliveries, answers: Answers)
    requires PlanFits(plan, ds)
    ensures LogFits(SendLog(plan, answers), ds)
    decreases |plan|
  {
    if plan != [] {
      var before, p := plan[..|plan| - 1], plan[|plan| - 1];
      var a, b := SendLog(before, answers), ChannelLog(p, answers);
      TriedAtMostOnce(before, ds, answers);
      assert p in plan;
      ChannelLogFits(p, ds, answers);
      forall x | x in a ensures x.key != p.key {
        KeysInPlan(before, answers, x);
        var i :| 0 <= i < |before| && before[i].key == x.key;
        assert plan[i].key == x.key;
      }
      LogsFit(a, b, p.key, ds);
    }
  }

  lemma {:induction false} LogsFit(a: seq<Sending>, b: seq<Sending>, key: ChannelKey, ds: Deliveries)
    requires LogFits(a, ds) && LogFits(b, ds)
    requires (forall x :: x in a ==> x.key != key) && (forall x :: x in b ==> x.key == key)
    ensures LogFits(a + b, ds)
  {
    var log := a + b;
    forall i, j | 0 <= i < j < |log| ensures Apart(log[i].ids, log[j].ids) {
      if i < |a| <= j {
        KeysApart(a[i], b[j - |a|], ds);
      }
    }
    forall i | 0 <= i < |log| ensures SendingFits(log[i], ds) {
      assert log[i] == if i < |a| then a[i] else b[i - |a|];
    }
  }

  /** A delivery is on one channel only. */
  lemma KeysApart(x: Sending, y: Sending, ds: Deliveries)
    requires SendingFits(x, ds) && SendingFits(y, ds) && x.key != y.key
    ensures Apart(x.ids, y.ids)
  {
    forall d | d in x.ids ensures d !in y.ids {
    }
  }

  predicate Tries(log: seq<Sending>, d: nat) {
    exists i :: 0 <= i < |log| && d in log[i].ids
  }

  predicate Limits(log: seq<Sending>, key: ChannelKey) {
    exists i :: 0 <= i < |log| && log[i].key == key && log[i].result.retryAfter.Some?
  }

  lemma {:induction false} AnswerHas(log: seq<Sending>, d: nat)
    ensures AnswerFor(log, d).Some? <==> Tries(log, d)
  {
    if log != [] {
      var n := |log| - 1;
      AnswerHas(log[..n], d);
      if Tries(log[..n], d) {
        var i :| 0 <= i < n && d in log[..n][i].ids;
        assert d in log[i].ids;
      }
      if Tries(log, d) && d !in log[n].ids {
        var i :| 0 <= i < |log| && d in log[i].ids;
        assert log[..n][i] == log[i];
      }
    }
  }

  lemma {:induction false} LimitHas(log: seq<Sending>, key: ChannelKey)
    ensures LimitFor(log, key).Some? <==> Limits(log, key)
  {
    if log != [] {
      var n := |log| - 1;
      LimitHas(log[..n], key);
      if Limits(log[..n], key) {
        var i :| 0 <= i < n && log[..n][i].key == key && log[..n][i].result.retryAfter.Some?;
        assert log[i] == log[..n][i];
      }
      if Limits(log, key) && !(log[n].key == key && log[n].result.retryAfter.Some?) {
        var i :| 0 <= i < |log| && log[i].key == key && log[i].result.retryAfter.Some?;
        assert log[..n][i] == log[i];
      }
    }
  }

  /** A delivery was tried, or its channel was rate limited. */
  predicate TriedOrWaits(log: seq<Sending>, key: ChannelKey, d: nat) {
    AnswerFor(log, d).Some? || LimitFor(log, key).Some?
  }

  lemma {:induction false} LongerLog(a: seq<Sending>, b: seq<Sending>, key: ChannelKey, d: nat)
    requires TriedOrWaits(a, key, d) || TriedOrWaits(b, key, d)
    ensures TriedOrWaits(a + b, key, d)
    decreases |b|
  {
    if b == [] {
      assert a + b == a;
    } else {
      var n := |b| - 1;
      assert (a + b)[..|a| + n] == a + b[..n];
      if TriedOrWaits(a, key, d) || TriedOrWaits(b[..n], key, d) {
        LongerLog(a, b[..n], key, d);
      }
    }
  }

  lemma {:induction false} IdsOfFrom(log: seq<Sending>, d: nat)
    requires d in IdsOf(log)
    ensures Tries(log, d)
    decreases |log|
  {
    if d in log[0].ids {
    } else {
      IdsOfFrom(log[1..], d);
      var i :| 0 <= i < |log[1..]| && d in log[1..][i].ids;
      assert d in log[i + 1].ids;
    }
  }

  lemma {:induction false} ChannelTriesOrStops(p: Planned, answers: Answers, d: nat)
    requires d in p.held + p.due
    ensures TriedOrWaits(ChannelLog(p, answers), p.key, d)
  {
    var log := ChannelLog(p, answers);
    InExactlyOneMessage(p.due, p.held, Combines(p.key));
    SendUntilIsPrefix(p.key, MessagesOf(p.due, p.held, Combines(p.key)), answers);
    if LimitFor(log, p.key).None? {
      IdsOfFrom(log, d);
      AnswerHas(log, d);
    }
  }

  /** Everything planned is tried, or its channel was rate limited and it waits. */
  lemma {:induction false} TriedOrLimited(plan: seq<Planned>, answers: Answers, i: nat, d: nat)
    requires i < |plan| && d in plan[i].held + plan[i].due
    ensures TriedOrWaits(SendLog(plan, answers), plan[i].key, d)
    decreases |plan|
  {
    var n := |plan| - 1;
    if i == n {
      ChannelTriesOrStops(plan[n], answers, d);
    } else {
      TriedOrLimited(plan[..n], answers, i, d);
    }
    LongerLog(SendLog(plan[..n], answers), ChannelLog(plan[n], answers), plan[i].key, d);
  }

  /** One more sending in the log, for a delivery not tried before. */
  lemma {:induction false} LogSoFar(log: seq<Sending>, i: nat, ds: Deliveries, d: nat)
    requires i < |log| && LogFits(log, ds) && d in log[i].ids
    ensures AnswerFor(log[..i], d).None?
  {
    AnswerHas(log[..i], d);
    forall k | 0 <= k < i ensures d !in log[k].ids {
      assert Apart(log[k].ids, log[i].ids);
    }
  }

  lemma AttemptedMoves(row: Delivery, r: SendResult, at: int)
    requires IsOpen(row.status) && WithinLimit(row.status, row.attempts)
    ensures MovedOne(row, Attempted(row, r, at), 1)
    ensures WithinLimit(Attempted(row, r, at).status, Attempted(row, r, at).attempts)
  {
  }

  lemma {:induction false} PlanKeys(s: Settings, ns: Notifications, ds: Deliveries, now: int, kinds: seq<ChannelKey>,
          i: nat)
    requires i < |Plan(s, ns, ds, now, kinds)|
    ensures var p := Plan(s, ns, ds, now, kinds)[i];
            p.key in kinds && Goes(s, p.key) && p.due == DueOn(ns, ds, p.key, now) && p.held == HeldOn(ns, ds, p.key)
    decreases |kinds|
  {
    var n := |kinds| - 1;
    var before := Plan(s, ns, ds, now, kinds[..n]);
    if i < |before| {
      PlanKeys(s, ns, ds, now, kinds[..n], i);
    }
  }

  lemma {:induction false} PlanKeysDiffer(s: Settings, ns: Notifications, ds: Deliveries, now: int,
          kinds: seq<ChannelKey>, i: nat, j: nat)
    requires Distinct(kinds) && i < j < |Plan(s, ns, ds, now, kinds)|
    ensures Plan(s, ns, ds, now, kinds)[i].key != Plan(s, ns, ds, now, kinds)[j].key
    decreases |kinds|
  {
    var n := |kinds| - 1;
    var before := Plan(s, ns, ds, now, kinds[..n]);
    if j < |before| {
      PlanKeysDiffer(s, ns, ds, now, kinds[..n], i, j);
    } else {
      PlanKeys(s, ns, ds, now, kinds[..n], i);
    }
  }

  lemma {:induction false} ChosenFit(ns: Notifications, ds: Deliveries, key: ChannelKey, now: int)
    ensures PlannedFits(Planned(key, DueOn(ns, ds, key, now), HeldOn(ns, ds, key)), ds)
  {
    var due, held := DueOn(ns, ds, key, now), HeldOn(ns, ds, key);
    var ids := held + due;
    assert forall i :: 0 <= i < |held| ==> held[i] in held;
    assert forall i :: 0 <= i < |due| ==> due[i] in due;
    forall i, j | 0 <= i < j < |ids| ensures ids[i] != ids[j] {
      if i < |held| <= j {
        assert held[i] in held && due[j - |held|] in due;
      }
    }
  }

  /** The plan the dispatcher makes is one the outbox can carry out. */
  lemma {:induction false} PlanIsSound(s: Settings, ns: Notifications, ds: Deliveries, now: int)
    ensures PlanFits(Plan(s, ns, ds, now, KINDS), ds)
  {
    var plan := Plan(s, ns, ds, now, KINDS);
    forall i, j | 0 <= i < j < |plan| ensures plan[i].key != plan[j].key {
      PlanKeysDiffer(s, ns, ds, now, KINDS, i, j);
    }
    forall p | p in plan ensures PlannedFits(p, ds) {
      var i :| 0 <= i < |plan| && plan[i] == p;
      PlanKeys(s, ns, ds, now, KINDS, i);
      ChosenFit(ns, ds, p.key, now);
    }
  }

  /** A channel that is on is planned for whenever anything is due or held on it. */
  lemma {:induction false} PlanHas(s: Settings, ns: Notifications, ds: Deliveries, now: int, kinds: seq<ChannelKey>,
          key: ChannelKey)
    requires key in kinds && Goes(s, key) && (DueOn(ns, ds, key, now) != [] || HeldOn(ns, ds, key) != [])
    ensures Planned(key, DueOn(ns, ds, key, now), HeldOn(ns, ds, key)) in Plan(s, ns, ds, now, kinds)
    decreases |kinds|
  {
    var n := |kinds| - 1;
    if key != kinds[n] {
      assert kinds == kinds[..n] + [kinds[n]];
      PlanHas(s, ns, ds, now, kinds[..n], key);
    }
  }

  /** A delivery part-way through the recording. */
  function TriedSoFar(row: Delivery, d: nat, log: seq<Sending>, at: int): Delivery {
    var answer := AnswerFor(log, d);
    if answer.Some? then Attempted(row, answer.value, at) else row
  }

  function PutOffSoFar(row: Delivery, d: nat, plan: seq<Planned>, touched: set<nat>, log: seq<Sending>,
          at: int): Delivery {
    var limit := LimitFor(log, row.channel);
    if d !in touched && PlannedDue(plan, row.channel, d) && limit.Some?
    then row.(nextAt := at + LimitSeconds(limit.value)) else row
  }

  lemma TriedStep(row: Delivery, d: nat, log: seq<Sending>, i: nat, ds: Deliveries, at: int)
    requires i < |log| && LogFits(log, ds)
    ensures TriedSoFar(row, d, log[..i + 1], at) ==
            if d in log[i].ids then Attempted(row, log[i].result, at) else TriedSoFar(row, d, log[..i], at)
    ensures d in log[i].ids ==> TriedSoFar(row, d, log[..i], at) == row
  {
    assert log[..i + 1][..i] == log[..i];
    if d in log[i].ids {
      LogSoFar(log, i, ds, d);
    }
  }

  lemma LimitStep(log: seq<Sending>, i: nat, key: ChannelKey)
    requires i < |log|
    ensures LimitFor(log[..i + 1], key) ==
            if log[i].key == key && log[i].result.retryAfter.Some? then log[i].result.retryAfter
            else LimitFor(log[..i], key)
  {
    assert log[..i + 1][..i] == log[..i];
  }

  lemma PlannedStep(plan: seq<Planned>, i: nat, key: ChannelKey, d: nat)
    requires i < |plan|
    ensures PlannedDue(plan[..i + 1], key, d)
            <==> PlannedDue(plan[..i], key, d) || (plan[i].key == key && d in plan[i].due)
  {
    if PlannedDue(plan[..i], key, d) {
      var k :| 0 <= k < i && plan[..i][k].key == key && d in plan[..i][k].due;
      assert plan[..i + 1][k] == plan[..i][k];
    }
    if plan[i].key == key && d in plan[i].due {
      assert plan[..i + 1][i] == plan[i];
    }
    if PlannedDue(plan[..i + 1], key, d) && !(plan[i].key == key && d in plan[i].due) {
      var k :| 0 <= k < i + 1 && plan[..i + 1][k].key == key && d in plan[..i + 1][k].due;
      assert plan[..i][k] == plan[..i + 1][k];
    }
  }

  lemma PlannedDueOpen(plan: seq<Planned>, ds: Deliveries, key: ChannelKey, d: nat)
    requires PlanFits(plan, ds) && PlannedDue(plan, key, d)
    ensures d < |ds| && IsOpen(ds[d].status) && ds[d].channel == key
  {
    var i :| 0 <= i < |plan| && plan[i].key == key && d in plan[i].due;
    assert PlannedFits(plan[i], ds);
    var k :| 0 <= k < |plan[i].due| && plan[i].due[k] == d;
    assert (plan[i].held + plan[i].due)[|plan[i].held| + k] == d;
  }

  lemma TriedOpen(log: seq<Sending>, ds: Deliveries, d: nat)
    requires LogFits(log, ds) && AnswerFor(log, d).Some?
    ensures d < |ds| && IsOpen(ds[d].status)
  {
    AnswerHas(log, d);
    var i :| 0 <= i < |log| && d in log[i].ids;
    assert SendingFits(log[i], ds);
  }

  /** Recording changes only what was open, and adds at most one attempt. */
  lemma RecordedMoves(ds: Deliveries, d: nat, plan: seq<Planned>, log: seq<Sending>, at: int)
    requires PlanFits(plan, ds) && LogFits(log, ds) && d < |ds| && WithinLimit(ds[d].status, ds[d].attempts)
    ensures var after := Recorded(ds[d], d, plan, log, at);
            MovedOne(ds[d], after, 1) && WithinLimit(after.status, after.attempts)
  {
    if AnswerFor(log, d).Some? {
      TriedOpen(log, ds, d);
      AttemptedMoves(ds[d], AnswerFor(log, d).value, at);
    } else if PlannedDue(plan, ds[d].channel, d) {
      PlannedDueOpen(plan, ds, ds[d].channel, d);
    }
  }
}
