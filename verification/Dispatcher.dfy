/** The outbox tables and the transactions that change them (alerts.py). */
module Dispatcher {
  import opened Prelude
  import opened Messages
  import opened Outbox
  import opened Dispatch

  /** An alert as it is queued. */
  datatype Alert = Alert(kind: string, tone: string, dedupe: Option<string>)

  function NewNotification(a: Alert, now: int): Notification {
    Notification(a.kind, a.tone, a.dedupe, Pending, 0, now)
  }

  ghost predicate Queued(ns: Notifications, a: Alert) {
    a.dedupe.Some? && exists i :: 0 <= i < |ns| && ns[i].dedupe == a.dedupe
  }

  ghost function Enqueued(ns: Notifications, a: Alert, now: int): Notifications {
    if Queued(ns, a) then ns else ns + [NewNotification(a, now)]
  }

  /** The tables together. */
  ghost predicate Sound(ns: Notifications, ds: Deliveries) {
    DeliveriesOk(ns, ds) && AttemptsOk(ns, ds) && SummariesOk(ns, ds) && DedupeOk(ns)
  }

  lemma EnqueueSound(ns: Notifications, ds: Deliveries, a: Alert, now: int)
    requires Sound(ns, ds)
    ensures Sound(Enqueued(ns, a, now), ds)
  {
    if !Queued(ns, a) {
      assert !Routed(ds, |ns|);
    }
  }

  lemma ResumSound(ns: Notifications, before: Deliveries, after: Deliveries, ids: set<nat>, now: Notifications,
          more: nat)
    requires Sound(ns, before) && Resummed(ns, before, after, ids, now) && Moved(before, after, more)
    requires forall d :: 0 <= d < |after| ==> WithinLimit(after[d].status, after[d].attempts)
    ensures Sound(now, after)
  {
    SummariesAfter(ns, before, after, ids, now);
    LimitsAfter(ns, before, after, ids, now);
    forall d | 0 <= d < |before| ensures after[d].channel == before[d].channel {
      assert MovedOne(before[d], after[d], more);
    }
    OthersAfter(ns, before, after, ids, now);
  }

  // ------------------------------------------------------------------------- routing

  lemma AddedHas(ds: Deliveries, x: Delivery, m: nat, s: Status)
    ensures Has(ds + [x], m, s) <==> Has(ds, m, s) || (x.notification == m && x.status == s)
  {
    var after := ds + [x];
    if Has(ds, m, s) {
      var d :| 0 <= d < |ds| && ds[d].notification == m && ds[d].status == s;
      assert after[d] == ds[d];
    }
    if x.notification == m && x.status == s {
      assert after[|ds|] == x;
    }
  }

  lemma AddedOnChannel(ds: Deliveries, x: Delivery, m: nat, key: ChannelKey)
    ensures OnChannel(ds + [x], m, key) <==> OnChannel(ds, m, key) || (x.notification == m && x.channel == key)
  {
    var after := ds + [x];
    if OnChannel(ds, m, key) {
      var d :| 0 <= d < |ds| && ds[d].notification == m && ds[d].channel == key;
      assert after[d] == ds[d];
    }
    if x.notification == m && x.channel == key {
      assert after[|ds|] == x;
    }
  }

  lemma RoutedMeans(ds: Deliveries, m: nat)
    ensures Routed(ds, m) <==> exists key :: OnChannel(ds, m, key)
  {
    if Routed(ds, m) {
      var d :| 0 <= d < |ds| && ds[d].notification == m;
      assert OnChannel(ds, m, ds[d].channel);
    }
  }

  lemma AddedElsewhere(row: Notification, ds: Deliveries, x: Delivery, m: nat)
    requires x.notification != m
    ensures Summary(row, ds + [x], m) == Summary(row, ds, m)
    ensures Routed(ds + [x], m) <==> Routed(ds, m)
  {
    assert (ds + [x])[..|ds|] == ds;
    forall s: Status ensures Has(ds + [x], m, s) <==> Has(ds, m, s) {
      AddedHas(ds, x, m, s);
    }
    forall key: ChannelKey ensures OnChannel(ds + [x], m, key) <==> OnChannel(ds, m, key) {
      AddedOnChannel(ds, x, m, key);
    }
    RoutedMeans(ds, m);
    RoutedMeans(ds + [x], m);
  }

  /** One more delivery of an alert still carrying its own state. */
  lemma {:induction false} DeliveryAdded(ns: Notifications, ds: Deliveries, n: nat, key: ChannelKey)
    requires Sound(ns, ds) && n < |ns| && IsOpen(ns[n].status) && WithinLimit(ns[n].status, ns[n].attempts)
    requires CarriedOver(ns[n], ds, n) && !OnChannel(ds, n, key)
    ensures Sound(ns, ds + [NewDelivery(ns[n], n, key)])
    ensures CarriedOver(ns[n], ds + [NewDelivery(ns[n], n, key)], n)
  {
    var x := NewDelivery(ns[n], n, key);
    forall m | 0 <= m < |ns|
      ensures ns[m] == Summary(ns[m], ds + [x], m)
      ensures !Routed(ds + [x], m) ==> WithinLimit(ns[m].status, ns[m].attempts)
    {
      if m != n {
        AddedElsewhere(ns[m], ds, x, m);
      } else {
        CarriedSummary(ns[n], ds + [x], n);
      }
    }
  }

  lemma DroppedSound(ns: Notifications, ds: Deliveries, n: nat)
    requires Sound(ns, ds) && n < |ns| && !Routed(ds, n)
    ensures Sound(ns[n := ns[n].(status := Dropped)], ds)
  {
  }

  /** What routing some of the alerts comes to: for each, one delivery on every
      channel that takes it. */
  ghost predicate Spread(before: Deliveries, after: Deliveries, s: Settings, ns: Notifications, ids: seq<nat>) {
    && before <= after
    && (forall d :: |before| <= d < |after| ==>
          after[d].notification in ids && after[d].notification < |ns|
          && after[d] == NewDelivery(ns[after[d].notification], after[d].notification, after[d].channel))
    && (forall n, key :: 0 <= n < |ns| ==>
          (OnChannel(after, n, key) <==> OnChannel(before, n, key) || (n in ids && Takes(s, ns[n], key))))
  }

  ghost predicate RowsRouted(before: Notifications, after: Notifications, s: Settings, ids: seq<nat>) {
    |after| == |before|
    && forall n :: 0 <= n < |before| ==> after[n] == if n in ids then RoutedRow(s, before[n]) else before[n]
  }

  /** One alert's deliveries, part-way through the channels. */
  ghost predicate SpreadOn(before: Deliveries, after: Deliveries, s: Settings, row: Notification, n: nat,
          kinds: seq<ChannelKey>) {
    && before <= after
    && (forall d :: |before| <= d < |after| ==> after[d] == NewDelivery(row, n, after[d].channel))
    && (forall m, key :: OnChannel(after, m, key) <==>
          OnChannel(before, m, key) || (m == n && key in kinds && Takes(s, row, key)))
  }

  lemma SpreadStep(before: Deliveries, ds: Deliveries, s: Settings, row: Notification, n: nat,
          kinds: seq<ChannelKey>, key: ChannelKey)
    requires SpreadOn(before, ds, s, row, n, kinds)
    ensures Takes(s, row, key) ==> SpreadOn(before, ds + [NewDelivery(row, n, key)], s, row, n, kinds + [key])
    ensures !Takes(s, row, key) ==> SpreadOn(before, ds, s, row, n, kinds + [key])
  {
    if Takes(s, row, key) {
      var x := NewDelivery(row, n, key);
      forall m, k ensures OnChannel(ds + [x], m, k) <==>
                          OnChannel(before, m, k) || (m == n && k in kinds + [key] && Takes(s, row, k))
      {
        AddedOnChannel(ds, x, m, k);
      }
    }
  }

  lemma EveryKind(key: ChannelKey)
    ensures key in KINDS
  {
    match key
    case Discord => assert KINDS[0] == Discord;
    case Ntfy => assert KINDS[1] == Ntfy;
    case Email => assert KINDS[2] == Email;
    case Webhook => assert KINDS[3] == Webhook;
  }

  lemma KindsDiffer()
    ensures Distinct(KINDS)
  {
  }

  lemma SpreadDone(before: Deliveries, after: Deliveries, s: Settings, ns: Notifications, n: nat)
    requires n < |ns| && SpreadOn(before, after, s, ns[n], n, KINDS)
    ensures Spread(before, after, s, ns, [n])
  {
    forall m, key | 0 <= m < |ns|
      ensures OnChannel(after, m, key) <==> OnChannel(before, m, key) || (m in [n] && Takes(s, ns[m], key))
    {
      EveryKind(key);
    }
  }

  lemma SpreadTwice(a: Deliveries, b: Deliveries, c: Deliveries, s: Settings, ns: Notifications, now: Notifications,
          ids: seq<nat>, n: nat)
    requires Spread(a, b, s, ns, ids) && Spread(b, c, s, now, [n]) && n !in ids && n < |ns| == |now| && now[n] == ns[n]
    ensures Spread(a, c, s, ns, ids + [n])
  {
    forall d | |a| <= d < |c|
      ensures c[d].notification in ids + [n] && c[d].notification < |ns|
      ensures c[d] == NewDelivery(ns[c[d].notification], c[d].notification, c[d].channel)
    {
      if d < |b| {
        assert c[d] == b[d];
      }
    }
    forall m, key | 0 <= m < |ns|
      ensures OnChannel(c, m, key) <==> OnChannel(a, m, key) || (m in ids + [n] && Takes(s, ns[m], key))
    {
      assert OnChannel(c, m, key) <==> OnChannel(b, m, key) || (m in [n] && Takes(s, now[m], key));
    }
  }

  lemma StillUnrouted(before: Deliveries, after: Deliveries, s: Settings, ns: Notifications, ids: seq<nat>, n: nat)
    requires Spread(before, after, s, ns, ids) && n !in ids && n < |ns| && !Routed(before, n)
    ensures !Routed(after, n)
  {
    RoutedMeans(before, n);
    RoutedMeans(after, n);
  }

  lemma RowsTwice(a: Notifications, b: Notifications, c: Notifications, s: Settings, ids: seq<nat>, n: nat)
    requires RowsRouted(a, b, s, ids) && n !in ids && n < |a| && c == b[n := RoutedRow(s, b[n])]
    ensures RowsRouted(a, c, s, ids + [n])
  {
  }

  // ------------------------------------------------------------- deciding and recording

  /** Some rows of the table, with one field set. */
  ghost predicate StatusSet(before: Deliveries, after: Deliveries, ids: seq<nat>, status: Status) {
    |after| == |before|
    && forall d :: 0 <= d < |before| ==> after[d] == if d in ids then before[d].(status := status) else before[d]
  }

  /** The deliveries of the channels gone through so far have had their verdict. */
  ghost predicate Decided(before: Deliveries, after: Deliveries, s: Settings, ns: Notifications, now: int,
          kinds: seq<ChannelKey>) {
    |after| == |before|
    && forall d :: 0 <= d < |before| ==>
         after[d] == if before[d].channel in kinds then Verdict(s, before[d], Chosen(ns, before, now, d)) else before[d]
  }

  /** The alerts of the rows that changed are marked to be summed up. */
  ghost predicate MarkedRows(before: Deliveries, after: Deliveries, changed: set<nat>) {
    |after| == |before|
    && forall d :: 0 <= d < |before| ==>
         after[d].notification == before[d].notification && (after[d] == before[d] || before[d].notification in changed)
  }

  lemma VerdictMoves(s: Settings, row: Delivery, chosen: bool)
    requires WithinLimit(row.status, row.attempts) && (chosen ==> IsOpen(row.status))
    ensures var after := Verdict(s, row, chosen);
            MovedOne(row, after, 0) && WithinLimit(after.status, after.attempts) && after.attempts == row.attempts
  {
  }

  ghost predicate Alike(q: Query, ns: Notifications, a: Deliveries, b: Deliveries, i: nat) {
    Matches(q, ns, a, i) <==> Matches(q, ns, b, i)
  }

  lemma {:induction false} SameSelect(q: Query, ns: Notifications, a: Deliveries, b: Deliveries, ids: seq<nat>,
          limit: nat)
    requires forall k :: 0 <= k < |ids| ==> Alike(q, ns, a, b, ids[k])
    ensures Select(q, ns, a, ids, limit) == Select(q, ns, b, ids, limit)
    decreases |ids|
  {
    if ids != [] && limit != 0 {
      var i := ids[0];
      assert Alike(q, ns, a, b, i);
      SameSelect(q, ns, a, b, ids[1..], if Matches(q, ns, a, i) then limit - 1 else limit);
    }
  }

  /** The verdicts on other channels do not change what a channel is to send. */
  lemma {:induction false} OtherChannels(before: Deliveries, after: Deliveries, s: Settings, ns: Notifications,
          now: int, kinds: seq<ChannelKey>, key: ChannelKey)
    requires Decided(before, after, s, ns, now, kinds) && key !in kinds
    ensures Select(Due(key, now), ns, after, OpenIds(ns, before), DUE_LIMIT) == DueOn(ns, before, key, now)
    ensures Select(Waiting(key), ns, after, OpenIds(ns, before), HELD_LIMIT) == HeldOn(ns, before, key)
  {
    forall d | 0 <= d < |before|
      ensures after[d] == before[d] || (before[d].channel != key && after[d].channel != key)
    {
    }
    SameSelect(Due(key, now), ns, before, after, OpenIds(ns, before), DUE_LIMIT);
    SameSelect(Waiting(key), ns, before, after, OpenIds(ns, before), HELD_LIMIT);
  }

  /** What one channel's turn does to its chosen deliveries. */
  ghost predicate Turn(before: Deliveries, after: Deliveries, s: Settings, ns: Notifications, all: Deliveries,
          now: int, key: ChannelKey) {
    var due, held := DueOn(ns, all, key, now), HeldOn(ns, all, key);
    if !s.enabled || key !in s.active then StatusSet(before, after, due + held, Dropped)
    else if s.quiet then StatusSet(before, after, due, Held)
    else after == before
  }

  lemma {:induction false} DecidedStep(before: Deliveries, mid: Deliveries, after: Deliveries, s: Settings,
          ns: Notifications, now: int, kinds: seq<ChannelKey>, key: ChannelKey)
    requires Decided(before, mid, s, ns, now, kinds) && key !in kinds && Turn(mid, after, s, ns, before, now, key)
    ensures Decided(before, after, s, ns, now, kinds + [key])
  {
    var due, held := DueOn(ns, before, key, now), HeldOn(ns, before, key);
    forall d | 0 <= d < |before|
      ensures after[d] == if before[d].channel in kinds + [key] then Verdict(s, before[d], Chosen(ns, before, now, d))
                          else before[d]
    {
      if before[d].channel == key {
        assert mid[d] == before[d];
      } else {
        assert d !in due && d !in held;
      }
    }
  }

  lemma PlanStep(s: Settings, ns: Notifications, ds: Deliveries, now: int, kinds: seq<ChannelKey>, i: nat)
    requires i < |kinds| && Distinct(kinds)
    ensures Plan(s, ns, ds, now, kinds[..i + 1]) == Plan(s, ns, ds, now, kinds[..i]) + PlanFor(s, ns, ds, now, kinds[i])
    ensures kinds[..i + 1] == kinds[..i] + [kinds[i]] && kinds[i] !in kinds[..i]
  {
    assert kinds[..i + 1][..i] == kinds[..i];
  }

  lemma MarkedTwice(a: Deliveries, b: Deliveries, c: Deliveries, few: set<nat>, more: set<nat>)
    requires MarkedRows(a, b, few) && MarkedRows(b, c, more) && few <= more
    ensures MarkedRows(a, c, more)
  {
  }

  /** Every row has had its verdict: each is as it was, held or dropped. */
  lemma {:induction false} DecidedMoves(before: Deliveries, after: Deliveries, s: Settings, ns: Notifications, now: int)
    requires Decided(before, after, s, ns, now, KINDS)
    requires forall d :: 0 <= d < |before| ==> WithinLimit(before[d].status, before[d].attempts)
    ensures Moved(before, after, 0)
    ensures forall d :: 0 <= d < |after| ==> after[d] == Verdict(s, before[d], Chosen(ns, before, now, d))
    ensures forall d :: 0 <= d < |after| ==>
              WithinLimit(after[d].status, after[d].attempts) && after[d].attempts == before[d].attempts
  {
    forall d | 0 <= d < |before|
      ensures MovedOne(before[d], after[d], 0) && after[d] == Verdict(s, before[d], Chosen(ns, before, now, d))
      ensures WithinLimit(after[d].status, after[d].attempts) && after[d].attempts == before[d].attempts
    {
      EveryKind(before[d].channel);
      VerdictMoves(s, before[d], Chosen(ns, before, now, d));
    }
  }

  /** Quiet hours lose nothing: all they do is hold what was due. A delivery is
      dropped only when alerting is off or its channel is gone, and is untouched
      when its channel is on. */
  lemma {:induction false} OnlyOffAndGoneDrop(before: Deliveries, after: Deliveries, s: Settings, ns: Notifications,
          now: int, d: nat)
    requires Decided(before, after, s, ns, now, KINDS) && d < |before| && after[d] != before[d]
    ensures after[d].status == Dropped ==> !s.enabled || before[d].channel !in s.active
    ensures after[d].status == Held ==> s.quiet && before[d].status == Pending && before[d].nextAt <= now
    ensures (after[d].status == Dropped || after[d].status == Held) && after[d] == before[d].(status := after[d].status)
  {
    EveryKind(before[d].channel);
    assert Chosen(ns, before, now, d);
  }

  /** What goes out is not touched before it does. */
  lemma {:induction false} PlanStillFits(before: Deliveries, after: Deliveries, s: Settings, ns: Notifications,
          now: int)
    requires Decided(before, after, s, ns, now, KINDS)
    ensures PlanFits(Plan(s, ns, before, now, KINDS), after)
  {
    var plan := Plan(s, ns, before, now, KINDS);
    PlanIsSound(s, ns, before, now);
    forall p | p in plan ensures PlannedFits(p, after) {
      var i :| 0 <= i < |plan| && plan[i] == p;
      PlanKeys(s, ns, before, now, KINDS, i);
      assert PlannedFits(p, before);
    }
  }

  ghost predicate AllTried(before: Deliveries, after: Deliveries, log: seq<Sending>, at: int) {
    |after| == |before| && forall d :: 0 <= d < |before| ==> after[d] == TriedSoFar(before[d], d, log, at)
  }

  ghost predicate AllPutOff(before: Deliveries, after: Deliveries, plan: seq<Planned>, touched: set<nat>,
          log: seq<Sending>, at: int) {
    |after| == |before| && forall d :: 0 <= d < |before| ==>
      after[d] == PutOffSoFar(before[d], d, plan, touched, log, at)
  }

  ghost predicate AllRecorded(before: Deliveries, after: Deliveries, plan: seq<Planned>, log: seq<Sending>, at: int) {
    |after| == |before| && forall d :: 0 <= d < |before| ==> after[d] == Recorded(before[d], d, plan, log, at)
  }

  ghost predicate AreTouched(touched: set<nat>, log: seq<Sending>) {
    forall d :: d in touched <==> AnswerFor(log, d).Some?
  }

  lemma {:induction false} TriedThenPutOff(before: Deliveries, mid: Deliveries, after: Deliveries,
          plan: seq<Planned>, touched: set<nat>, log: seq<Sending>, at: int)
    requires AllTried(before, mid, log, at) && AllPutOff(mid, after, plan, touched, log, at) && AreTouched(touched, log)
    ensures AllRecorded(before, after, plan, log, at)
  {
    forall d | 0 <= d < |before| ensures after[d] == Recorded(before[d], d, plan, log, at) {
      assert mid[d] == TriedSoFar(before[d], d, log, at) && after[d] == PutOffSoFar(mid[d], d, plan, touched, log, at);
      assert d in touched <==> AnswerFor(log, d).Some?;
    }
  }

  lemma {:induction false} RecordedAll(before: Deliveries, after: Deliveries, plan: seq<Planned>, log: seq<Sending>,
          at: int)
    requires PlanFits(plan, before) && LogFits(log, before) && AllRecorded(before, after, plan, log, at)
    requires forall d :: 0 <= d < |before| ==> WithinLimit(before[d].status, before[d].attempts)
    ensures Moved(before, after, 1)
    ensures forall d :: 0 <= d < |after| ==> WithinLimit(after[d].status, after[d].attempts)
  {
    forall d | 0 <= d < |before|
      ensures MovedOne(before[d], after[d], 1) && WithinLimit(after[d].status, after[d].attempts)
    {
      RecordedMoves(before, d, plan, log, at);
    }
  }

  /** The alerts of the deliveries that were tried or planned. */
  function AlertsOf(ds: Deliveries, ids: set<nat>): set<nat> {
    set d | 0 <= d < |ds| && d in ids :: ds[d].notification
  }

  function PlannedIds(plan: seq<Planned>): set<nat> {
    set i, d | 0 <= i < |plan| && d in plan[i].due :: d
  }

  lemma {:induction false} RecordedMarked(before: Deliveries, after: Deliveries, plan: seq<Planned>,
          touched: set<nat>, log: seq<Sending>, at: int)
    requires AllRecorded(before, after, plan, log, at) && AreTouched(touched, log)
    ensures MarkedRows(before, after, AlertsOf(after, touched + PlannedIds(plan)))
  {
    forall d | 0 <= d < |before|
      ensures after[d].notification == before[d].notification
      ensures after[d] == before[d] || before[d].notification in AlertsOf(after, touched + PlannedIds(plan))
    {
      assert after[d] == Recorded(before[d], d, plan, log, at);
      if AnswerFor(log, d).Some? {
        assert d in touched + PlannedIds(plan);
      } else if PlannedDue(plan, before[d].channel, d) {
        var i :| 0 <= i < |plan| && plan[i].key == before[d].channel && d in plan[i].due;
        assert d in touched + PlannedIds(plan);
      }
    }
  }

  lemma {:induction false} TriedMore(before: Deliveries, mid: Deliveries, after: Deliveries, log: seq<Sending>,
          i: nat, at: int)
    requires i < |log| && AllTried(before, mid, log[..i], at) && LogFits(log, before) && |after| == |mid|
    requires forall d :: 0 <= d < |mid| ==>
               after[d] == if d in log[i].ids then Attempted(mid[d], log[i].result, at) else mid[d]
    ensures AllTried(before, after, log[..i + 1], at)
  {
    forall d | 0 <= d < |before| ensures after[d] == TriedSoFar(before[d], d, log[..i + 1], at) {
      TriedStep(before[d], d, log, i, before, at);
      assert mid[d] == TriedSoFar(before[d], d, log[..i], at);
    }
  }

  lemma PlannedInRange(plan: seq<Planned>, ds: Deliveries)
    requires PlanFits(plan, ds)
    ensures forall i, d :: 0 <= i < |plan| && d in plan[i].due ==> d < |ds|
  {
    forall i, d | 0 <= i < |plan| && d in plan[i].due ensures d < |ds| {
      assert PlannedDue(plan, plan[i].key, d);
      PlannedDueOpen(plan, ds, plan[i].key, d);
    }
  }

  lemma {:induction false} PutOffMore(first: Deliveries, before: Deliveries, mid: Deliveries, after: Deliveries,
          plan: seq<Planned>, touched: set<nat>, log: seq<Sending>, i: nat, at: int)
    requires i < |log| && AllPutOff(before, mid, plan, touched, log[..i], at) && |after| == |mid|
    requires PlanFits(plan, first) && |first| == |before|
    requires forall d :: 0 <= d < |first| ==> first[d].channel == before[d].channel
    requires forall d :: 0 <= d < |mid| ==>
               after[d] == if log[i].result.retryAfter.Some? && d !in touched && PlannedDue(plan, log[i].key, d)
                           then mid[d].(nextAt := at + LimitSeconds(log[i].result.retryAfter.value)) else mid[d]
    ensures AllPutOff(before, after, plan, touched, log[..i + 1], at)
  {
    forall d | 0 <= d < |before| ensures after[d] == PutOffSoFar(before[d], d, plan, touched, log[..i + 1], at) {
      LimitStep(log, i, before[d].channel);
      assert mid[d] == PutOffSoFar(before[d], d, plan, touched, log[..i], at);
      if PlannedDue(plan, log[i].key, d) {
        PlannedDueOpen(plan, first, log[i].key, d);
      }
    }
  }

  lemma {:induction false} PlannedOnce(plan: seq<Planned>, ds: Deliveries, i: nat, d: nat)
    requires PlanFits(plan, ds) && i < |plan| && d in plan[i].held + plan[i].due && d < |ds|
    ensures ds[d].channel == plan[i].key && (PlannedDue(plan, plan[i].key, d) <==> d in plan[i].due)
  {
    assert plan[i] in plan && PlannedFits(plan[i], ds);
    forall j | 0 <= j < |plan| && j != i ensures plan[j].key != plan[i].key {
    }
  }

  /** What a dispatch does to everything it planned: one attempt more, or, where
      its channel was rate limited, none and, if it was due, the channel's wait. */
  lemma {:induction false} TriedOnceOrWaits(plan: seq<Planned>, ds: Deliveries, answers: Answers, i: nat, d: nat,
          at: int)
    requires PlanFits(plan, ds) && i < |plan| && d in plan[i].held + plan[i].due && d < |ds|
    ensures var log := SendLog(plan, answers);
            var after, limit := Recorded(ds[d], d, plan, log, at), LimitFor(log, plan[i].key);
            || after.attempts == ds[d].attempts + 1
            || (limit.Some?
                && after == if d in plan[i].due then ds[d].(nextAt := at + LimitSeconds(limit.value)) else ds[d])
  {
    TriedOrLimited(plan, answers, i, d);
    PlannedOnce(plan, ds, i, d);
  }

  /** In all its runs the dispatcher hands a delivery to its channel at most as
      often as the limit leaves room for, and no more once it is settled. */
  lemma NeverTriedPastTheLimit(ns: Notifications, ds: Deliveries, carried: seq<nat>, sends: seq<nat>, d: nat)
    requires Sound(ns, ds) && Tallied(ds, carried, sends) && d < |ds|
    ensures carried[d] + Times(sends, d) <= MAX_ATTEMPTS
    ensures IsOpen(ds[d].status) ==> carried[d] + Times(sends, d) < MAX_ATTEMPTS
  {
    assert WithinLimit(ds[d].status, ds[d].attempts);
  }

  lemma LongerMoves(a: Deliveries, b: Deliveries)
    requires a <= b
    ensures Moved(a, b, 0)
  {
  }

  lemma {:induction false} OnceMore(a: Deliveries, b: Deliveries, kept: seq<nat>, carried: seq<nat>,
          before: seq<nat>, sends: seq<nat>)
    requires Tallied(a, kept, before) && Tallied(b, carried, sends) && kept == carried && Moved(a, b, 1)
    ensures forall d :: 0 <= d < |b| ==> Times(sends, d) <= Times(before, d) + 1
  {
    forall d | 0 <= d < |b| ensures Times(sends, d) <= Times(before, d) + 1 {
      assert MovedOne(a[d], b[d], 1);
    }
  }

  class AlertTables {
    var notifications: Notifications
    var deliveries: Deliveries
    /** The attempts each delivery was made with. */
    ghost var carried: seq<nat>
    /** Every delivery handed to a channel, in order. */
    ghost var sends: seq<nat>

    ghost predicate Valid()
      reads this
    {
      Sound(notifications, deliveries) && Tallied(deliveries, carried, sends)
    }

    /** An outbox may start with alerts from before channels existed. */
    constructor (rows: Notifications)
      requires DedupeOk(rows) && forall n :: 0 <= n < |rows| ==> WithinLimit(rows[n].status, rows[n].attempts)
      ensures Valid() && notifications == rows && deliveries == [] && sends == []
    {
      notifications, deliveries, carried, sends := rows, [], [], [];
    }

    /** A new alert, unless one of the same event is there. */
    method Enqueue(a: Alert, now: int) returns (queued: bool)
      requires Valid()
      modifies this`notifications
      ensures Valid()
      ensures queued == !Queued(old(notifications), a)
      ensures notifications == Enqueued(old(notifications), a, now)
    {
      EnqueueSound(notifications, deliveries, a, now);
      if a.dedupe.Some? {
        for i := 0 to |notifications|
          invariant forall j :: 0 <= j < i ==> notifications[j].dedupe != a.dedupe
        {
          if notifications[i].dedupe == a.dedupe {
            return false;
          }
        }
      }
      notifications := notifications + [NewNotification(a, now)];
      queued := true;
    }

    /** The alert's deliveries, by channel; it is dropped if no channel takes it. */
    method RouteOne(n: nat, s: Settings)
      requires Valid() && n < |notifications| && IsOpen(notifications[n].status) && !Routed(deliveries, n)
      modifies this`notifications, this`deliveries, this`carried
      ensures Valid()
      ensures notifications == old(notifications)[n := RoutedRow(s, old(notifications)[n])]
      ensures Spread(old(deliveries), deliveries, s, old(notifications), [n])
      ensures old(carried) <= carried
    {
      var row := notifications[n];
      RoutedMeans(deliveries, n);
      var any := false;
      for k := 0 to |KINDS|
        invariant Valid() && CarriedOver(row, deliveries, n) && notifications == old(notifications)
        invariant SpreadOn(old(deliveries), deliveries, s, row, n, KINDS[..k]) && old(carried) <= carried
        invariant any == Routed(deliveries, n)
        invariant any ==> HasTaker(s, row)
      {
        SpreadStep(old(deliveries), deliveries, s, row, n, KINDS[..k], KINDS[k]);
        assert KINDS[..k + 1] == KINDS[..k] + [KINDS[k]];
        if Takes(s, row, KINDS[k]) {
          AddDelivery(n, KINDS[k]);
          any := true;
        }
      }
      assert KINDS[..|KINDS|] == KINDS;
      SpreadDone(old(deliveries), deliveries, s, old(notifications), n);
      RoutedMeans(deliveries, n);
      if !any {
        DroppedSound(notifications, deliveries, n);
        notifications := notifications[n := row.(status := Dropped)];
      }
    }

    /** One delivery more, of an alert still carrying its own state. */
    method AddDelivery(n: nat, key: ChannelKey)
      requires Valid() && n < |notifications| && IsOpen(notifications[n].status)
      requires WithinLimit(notifications[n].status, notifications[n].attempts)
      requires CarriedOver(notifications[n], deliveries, n) && !OnChannel(deliveries, n, key)
      modifies this`deliveries, this`carried
      ensures Valid() && CarriedOver(notifications[n], deliveries, n) && Routed(deliveries, n)
      ensures deliveries == old(deliveries) + [NewDelivery(notifications[n], n, key)]
      ensures carried == old(carried) + [notifications[n].attempts]
    {
      var x := NewDelivery(notifications[n], n, key);
      DeliveryAdded(notifications, deliveries, n, key);
      TalliedMore(deliveries, carried, sends, x);
      AddedOnChannel(deliveries, x, n, key);
      RoutedMeans(deliveries + [x], n);
      deliveries, carried := deliveries + [x], carried + [x.attempts];
    }

    /** Route what has not been routed. */
    method Route(s: Settings)
      requires Valid()
      modifies this`notifications, this`deliveries, this`carried
      ensures Valid()
      ensures var ids := Select(Unrouted, old(notifications), old(deliveries), Ids(|old(notifications)|), ROUTE_LIMIT);
              RowsRouted(old(notifications), notifications, s, ids)
              && Spread(old(deliveries), deliveries, s, old(notifications), ids)
      ensures old(carried) <= carried
    {
      var ids := Select(Unrouted, notifications, deliveries, Ids(|notifications|), ROUTE_LIMIT);
      RouteThese(ids, s);
    }

    method RouteThese(ids: seq<nat>, s: Settings)
      requires Valid() && Distinct(ids)
      requires forall n :: n in ids ==> Matches(Unrouted, notifications, deliveries, n)
      modifies this`notifications, this`deliveries, this`carried
      ensures Valid()
      ensures RowsRouted(old(notifications), notifications, s, ids)
      ensures Spread(old(deliveries), deliveries, s, old(notifications), ids)
      ensures old(carried) <= carried
    {
      for i := 0 to |ids|
        invariant Valid() && old(carried) <= carried
        invariant RowsRouted(old(notifications), notifications, s, ids[..i])
        invariant Spread(old(deliveries), deliveries, s, old(notifications), ids[..i])
      {
        var n := ids[i];
        assert ids[..i + 1] == ids[..i] + [n];
        assert n in ids && n !in ids[..i];
        StillUnrouted(old(deliveries), deliveries, s, old(notifications), ids[..i], n);
        ghost var before, rows := deliveries, notifications;
        RouteOne(n, s);
        SpreadTwice(old(deliveries), before, deliveries, s, old(notifications), rows, ids[..i], n);
        RowsTwice(old(notifications), rows, notifications, s, ids[..i], n);
      }
      assert ids[..|ids|] == ids;
    }

    /** Sum up these alerts from their deliveries again. */
    method Summarise(ids: set<nat>)
      modifies this`notifications
      ensures |notifications| == |old(notifications)|
      ensures forall n :: 0 <= n < |notifications| ==>
                notifications[n]
                == if n in ids then Summary(old(notifications)[n], deliveries, n) else old(notifications)[n]
    {
      for n := 0 to |notifications|
        invariant |notifications| == |old(notifications)|
        invariant forall m :: 0 <= m < |notifications| ==>
                    notifications[m] == if m in ids && m < n then Summary(old(notifications)[m], deliveries, m)
                                        else old(notifications)[m]
      {
        if n in ids {
          notifications := notifications[n := Summary(notifications[n], deliveries, n)];
        }
      }
    }

    method SetStatus(ids: seq<nat>, status: Status, marked: set<nat>) returns (changed: set<nat>)
      requires forall d :: d in ids ==> d < |deliveries|
      modifies this`deliveries
      ensures StatusSet(old(deliveries), deliveries, ids, status)
      ensures marked <= changed && MarkedRows(old(deliveries), deliveries, changed)
    {
      changed := marked;
      for i := 0 to |ids|
        invariant StatusSet(old(deliveries), deliveries, ids[..i], status)
        invariant marked <= changed && MarkedRows(old(deliveries), deliveries, changed)
      {
        assert ids[..i + 1] == ids[..i] + [ids[i]];
        var d := ids[i];
        assert d in ids;
        deliveries := deliveries[d := deliveries[d].(status := status)];
        changed := changed + {deliveries[d].notification};
      }
      assert ids[..|ids|] == ids;
    }

    /** A channel's turn when nothing goes out on it. */
    method HoldBack(s: Settings, key: ChannelKey, due: seq<nat>, held: seq<nat>,
            marked: set<nat>) returns (changed: set<nat>)
      requires !Goes(s, key) && forall d :: d in due + held ==> d < |deliveries|
      modifies this`deliveries
      ensures if !s.enabled || key !in s.active then StatusSet(old(deliveries), deliveries, due + held, Dropped)
              else StatusSet(old(deliveries), deliveries, due, Held)
      ensures marked <= changed && MarkedRows(old(deliveries), deliveries, changed)
    {
      if !s.enabled || key !in s.active {
        changed := SetStatus(due + held, Dropped, marked);
      } else {
        assert forall d :: d in due ==> d in due + held;
        changed := SetStatus(due, Held, marked);
      }
    }

    /** One channel's turn: what it is to send, or what is held back. */
    method TakeTurn(s: Settings, now: int, key: ChannelKey, open: seq<nat>, marked: set<nat>, ghost all: Deliveries,
            ghost kinds: seq<ChannelKey>)
      returns (planned: seq<Planned>, changed: set<nat>)
      requires open == OpenIds(notifications, all) && key !in kinds
      requires Decided(all, deliveries, s, notifications, now, kinds)
      modifies this`deliveries
      ensures planned == PlanFor(s, notifications, all, now, key)
      ensures Turn(old(deliveries), deliveries, s, notifications, all, now, key)
      ensures marked <= changed && MarkedRows(old(deliveries), deliveries, changed)
    {
      OtherChannels(all, deliveries, s, notifications, now, kinds, key);
      var due := Select(Due(key, now), notifications, deliveries, open, DUE_LIMIT);
      var held := Select(Waiting(key), notifications, deliveries, open, HELD_LIMIT);
      planned, changed := [], marked;
      if due != [] || held != [] {
        if Goes(s, key) {
          planned := [Planned(key, due, held)];
        } else {
          changed := HoldBack(s, key, due, held, changed);
        }
      }
    }

    /** Every channel's turn. */
    method TakeTurns(s: Settings, now: int) returns (plan: seq<Planned>, changed: set<nat>)
      modifies this`deliveries
      ensures plan == Plan(s, notifications, old(deliveries), now, KINDS)
      ensures Decided(old(deliveries), deliveries, s, notifications, now, KINDS)
      ensures MarkedRows(old(deliveries), deliveries, changed)
    {
      ghost var before := deliveries;
      var open, kinds := OpenIds(notifications, deliveries), KINDS;
      KindsDiffer();
      plan, changed := [], {};
      for k := 0 to |kinds|
        invariant plan == Plan(s, notifications, before, now, kinds[..k])
        invariant Decided(before, deliveries, s, notifications, now, kinds[..k])
        invariant MarkedRows(before, deliveries, changed)
      {
        PlanStep(s, notifications, before, now, kinds, k);
        ghost var mid, marked := deliveries, changed;
        var planned;
        planned, changed := TakeTurn(s, now, kinds[k], open, changed, before, kinds[..k]);
        plan := plan + planned;
        DecidedStep(before, mid, deliveries, s, notifications, now, kinds[..k], kinds[k]);
        MarkedTwice(before, mid, deliveries, marked, changed);
      }
      assert kinds[..|kinds|] == kinds;
    }

    /** Decide what goes out. With alerting off or a channel gone its deliveries
        are dropped, in quiet hours they are held, and the rest is the plan. */
    method Decide(s: Settings, now: int) returns (plan: seq<Planned>)
      requires Valid()
      modifies this`notifications, this`deliveries
      ensures Valid() && Moved(old(deliveries), deliveries, 0) && |deliveries| == |old(deliveries)|
      ensures forall d :: 0 <= d < |deliveries| ==>
                deliveries[d] == Verdict(s, old(deliveries)[d], Chosen(old(notifications), old(deliveries), now, d))
      ensures plan == Plan(s, old(notifications), old(deliveries), now, KINDS) && PlanFits(plan, deliveries)
    {
      ghost var before := deliveries;
      var changed;
      plan, changed := TakeTurns(s, now);
      DecidedMoves(before, deliveries, s, notifications, now);
      PlanStillFits(before, deliveries, s, notifications, now);
      Summarise(changed);
      ResumSound(old(notifications), before, deliveries, changed, notifications, 0);
    }

    /** Send the plan, holding nothing: each channel's messages one by one until
        one is rate limited. */
    static method Send(plan: seq<Planned>, answers: Answers) returns (log: seq<Sending>)
      ensures log == SendLog(plan, answers)
    {
      log := [];
      for i := 0 to |plan|
        invariant log == SendLog(plan[..i], answers)
      {
        var messages := GroupIntoMessages(plan[i].due, plan[i].held, Combines(plan[i].key));
        var sent := SendOn(plan[i].key, messages, answers);
        assert plan[..i + 1][..i] == plan[..i];
        log := log + sent;
      }
      assert plan[..|plan|] == plan;
    }

    static method SendOn(key: ChannelKey, messages: seq<seq<nat>>, answers: Answers) returns (log: seq<Sending>)
      ensures log == SendUntil(key, messages, answers)
    {
      log := [];
      for i := 0 to |messages|
        invariant log + SendUntil(key, messages[i..], answers) == SendUntil(key, messages, answers)
      {
        var result := answers(key, messages[i]);
        assert messages[i..][1..] == messages[i + 1..];
        ghost var before := log;
        log := log + [Sending(key, messages[i], result)];
        if result.retryAfter.Some? {
          assert SendUntil(key, messages[i..], answers) == [Sending(key, messages[i], result)];
          return;
        }
        assert SendUntil(key, messages[i..], answers)
               == [Sending(key, messages[i], result)] + SendUntil(key, messages[i + 1..], answers);
      }
    }

    /** Count one message's attempt on each of its deliveries. */
    method Attempt(ids: seq<nat>, r: SendResult, at: int)
      requires Tallied(deliveries, carried, sends) && Distinct(ids) && forall d :: d in ids ==> d < |deliveries|
      modifies this`deliveries, this`sends
      ensures Tallied(deliveries, carried, sends) && |deliveries| == |old(deliveries)|
      ensures forall d :: 0 <= d < |deliveries| ==>
                deliveries[d] == if d in ids then Attempted(old(deliveries)[d], r, at) else old(deliveries)[d]
      ensures sends == old(sends) + ids
    {
      for i := 0 to |ids|
        invariant Tallied(deliveries, carried, sends) && |deliveries| == |old(deliveries)|
        invariant forall d :: 0 <= d < |deliveries| ==>
                    deliveries[d] == if d in ids[..i] then Attempted(old(deliveries)[d], r, at) else old(deliveries)[d]
        invariant sends == old(sends) + ids[..i]
      {
        assert ids[..i + 1] == ids[..i] + [ids[i]];
        var d := ids[i];
        assert d in ids && d !in ids[..i];
        TalliedStep(deliveries, carried, sends, d, Attempted(deliveries[d], r, at));
        deliveries := deliveries[d := Attempted(deliveries[d], r, at)];
        sends := sends + [d];
      }
      assert ids[..|ids|] == ids;
    }

    /** What a limited channel was never asked to send is put off as long as the rest. */
    method PutOff(plan: seq<Planned>, key: ChannelKey, touched: set<nat>, later: int)
      requires forall i, d :: 0 <= i < |plan| && d in plan[i].due ==> d < |deliveries|
      modifies this`deliveries
      ensures |deliveries| == |old(deliveries)|
      ensures forall d :: 0 <= d < |deliveries| ==>
                deliveries[d] == if d !in touched && PlannedDue(plan, key, d) then old(deliveries)[d].(nextAt := later)
                                 else old(deliveries)[d]
    {
      for i := 0 to |plan|
        invariant |deliveries| == |old(deliveries)|
        invariant forall d :: 0 <= d < |deliveries| ==>
                    deliveries[d] == if d !in touched && PlannedDue(plan[..i], key, d)
                                     then old(deliveries)[d].(nextAt := later) else old(deliveries)[d]
      {
        forall d | 0 <= d < |deliveries|
          ensures PlannedDue(plan[..i + 1], key, d)
                  <==> PlannedDue(plan[..i], key, d) || (plan[i].key == key && d in plan[i].due)
        {
          PlannedStep(plan, i, key, d);
        }
        if plan[i].key == key {
          PutOffItems(plan[i].due, touched, later);
        }
      }
      assert plan[..|plan|] == plan;
    }

    method PutOffItems(items: seq<nat>, touched: set<nat>, later: int)
      requires forall d :: d in items ==> d < |deliveries|
      modifies this`deliveries
      ensures |deliveries| == |old(deliveries)|
      ensures forall d :: 0 <= d < |deliveries| ==>
                deliveries[d] == if d in items && d !in touched then old(deliveries)[d].(nextAt := later)
                                 else old(deliveries)[d]
    {
      for i := 0 to |items|
        invariant |deliveries| == |old(deliveries)|
        invariant forall d :: 0 <= d < |deliveries| ==>
                    deliveries[d] == if d in items[..i] && d !in touched then old(deliveries)[d].(nextAt := later)
                                     else old(deliveries)[d]
      {
        assert items[..i + 1] == items[..i] + [items[i]];
        assert items[i] in items;
        if items[i] !in touched {
          deliveries := deliveries[items[i] := deliveries[items[i]].(nextAt := later)];
        }
      }
      assert items[..|items|] == items;
    }

    method RecordAnswers(log: seq<Sending>, at: int) returns (touched: set<nat>)
      requires Tallied(deliveries, carried, sends) && LogFits(log, deliveries)
      modifies this`deliveries, this`sends
      ensures Tallied(deliveries, carried, sends) && AllTried(old(deliveries), deliveries, log, at)
      ensures AreTouched(touched, log) && old(sends) <= sends
    {
      touched := {};
      for i := 0 to |log|
        invariant Tallied(deliveries, carried, sends) && AllTried(old(deliveries), deliveries, log[..i], at)
        invariant AreTouched(touched, log[..i]) && old(sends) <= sends
      {
        ghost var mid := deliveries;
        assert SendingFits(log[i], old(deliveries));
        Attempt(log[i].ids, log[i].result, at);
        TriedMore(old(deliveries), mid, deliveries, log, i, at);
        assert log[..i + 1][..i] == log[..i];
        touched := touched + Elements(log[i].ids);
      }
      assert log[..|log|] == log;
    }

    method RecordLimits(plan: seq<Planned>, log: seq<Sending>, touched: set<nat>, at: int, ghost first: Deliveries)
      requires PlanFits(plan, first) && |first| == |deliveries|
      requires forall d :: 0 <= d < |first| ==> first[d].channel == deliveries[d].channel
      modifies this`deliveries
      ensures AllPutOff(old(deliveries), deliveries, plan, touched, log, at)
    {
      for i := 0 to |log|
        invariant AllPutOff(old(deliveries), deliveries, plan, touched, log[..i], at)
      {
        ghost var mid := deliveries;
        if log[i].result.retryAfter.Some? {
          PlannedInRange(plan, first);
          PutOff(plan, log[i].key, touched, at + LimitSeconds(log[i].result.retryAfter.value));
        }
        PutOffMore(first, old(deliveries), mid, deliveries, plan, touched, log, i, at);
      }
      assert log[..|log|] == log;
    }

    /** Record how the sending went: every message's answer on each of its
        deliveries, then the waits, then the alerts' own status. */
    method Record(plan: seq<Planned>, log: seq<Sending>, at: int)
      requires Valid() && PlanFits(plan, deliveries) && LogFits(log, deliveries)
      modifies this`notifications, this`deliveries, this`sends
      ensures Valid() && AllRecorded(old(deliveries), deliveries, plan, log, at)
      ensures Moved(old(deliveries), deliveries, 1) && old(sends) <= sends
    {
      ghost var before := deliveries;
      var touched := RecordAnswers(log, at);
      ghost var mid := deliveries;
      RecordLimits(plan, log, touched, at, before);
      TriedThenPutOff(before, mid, deliveries, plan, touched, log, at);
      RecordedAll(before, deliveries, plan, log, at);
      var changed := AlertsOf(deliveries, touched + PlannedIds(plan));
      RecordedMarked(before, deliveries, plan, touched, log, at);
      Summarise(changed);
      ResumSound(old(notifications), before, deliveries, changed, notifications, 1);
    }

    method EnqueueAll(alerts: seq<Alert>, now: int)
      requires Valid()
      modifies this`notifications
      ensures Valid()
    {
      for i := 0 to |alerts|
        invariant Valid()
      {
        var queued := Enqueue(alerts[i], now);
      }
    }

    /** One run of the dispatcher, with what may be queued while it is sending. */
    method Dispatch(s: Settings, now: int, answers: Answers, meanwhile: seq<Alert>, at: int)
      requires Valid()
      modifies this
      ensures Valid() && Moved(old(deliveries), deliveries, 1)
      ensures old(carried) <= carried && old(sends) <= sends
      ensures forall d :: 0 <= d < |deliveries| ==> Times(sends, d) <= Times(old(sends), d) + 1
    {
      Route(s);
      ghost var routed := deliveries;
      LongerMoves(old(deliveries), routed);
      var plan := Decide(s, now);
      ghost var decided := deliveries;
      MovedTwice(old(deliveries), routed, decided, 0, 0);
      if plan == [] {
        return;
      }
      var log := Send(plan, answers);
      TriedAtMostOnce(plan, deliveries, answers);
      EnqueueAll(meanwhile, at);
      Record(plan, log, at);
      MovedTwice(old(deliveries), decided, deliveries, 0, 1);
      OnceMore(decided, deliveries, carried, carried, old(sends), sends);
    }
  }
}
