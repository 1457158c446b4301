/** Alerts and their deliveries: what a channel owes an alert is one row, with a
    life of its own (alerts.py). */
module Outbox {
  import opened Prelude
  import opened Messages

  const BACKOFF_SECONDS: seq<int> := [30, 120, 600, 1800]
  const MAX_ATTEMPTS := 5
  const ROUTE_LIMIT := 200
  const OPEN_LIMIT := 1000
  const DUE_LIMIT := 50
  const HELD_LIMIT := 200

  datatype Status = Pending | Held | Sent | Failed | Dropped

  datatype Notification = Notification(kind: string, tone: string, dedupe: Option<string>,
                                       status: Status, attempts: nat, nextAt: int)

  datatype Delivery = Delivery(notification: nat, channel: ChannelKey,
                               status: Status, attempts: nat, nextAt: int, sentAt: Option<int>)

  /** A channel's answer to one message. */
  datatype SendResult = SendResult(ok: bool, retryAfter: Option<int>, permanent: bool)

  /** What a dispatch goes by: alerting on or off, quiet hours or not, and the
      channels set up with the groups each takes. */
  datatype Settings = Settings(enabled: bool, quiet: bool, active: map<ChannelKey, set<Group>>)

  type Notifications = seq<Notification>
  type Deliveries = seq<Delivery>

  predicate IsOpen(s: Status) { s == Pending || s == Held }

  predicate IsSettled(s: Status) { !IsOpen(s) }

  // ------------------------------------------------------------------------ quiet hours

  const DAY_SECONDS := 86400

  /** Whether a time of day is in the quiet window, overnight or not. */
  predicate InQuietHours(start: Option<int>, end: Option<int>, local: int) {
    if start.None? || end.None? || start == end then false
    else if start.value < end.value then start.value <= local < end.value
    else local >= start.value || local < end.value
  }

  /** From one time of day to another, forwards round the clock. */
  function Ahead(from: int, to: int): int {
    if to >= from then to - from else to - from + DAY_SECONDS
  }

  /** Quiet hours run forwards from their start up to their end. */
  lemma QuietHoursRunForwards(start: int, end: int, local: int)
    requires 0 <= start < DAY_SECONDS && 0 <= end < DAY_SECONDS && 0 <= local < DAY_SECONDS
    ensures InQuietHours(Some(start), Some(end), local) <==> Ahead(start, local) < Ahead(start, end)
  {
  }

  // -------------------------------------------------------------- an alert's own status

  predicate Routed(ds: Deliveries, n: nat) {
    exists d :: 0 <= d < |ds| && ds[d].notification == n
  }

  predicate Has(ds: Deliveries, n: nat, s: Status) {
    exists d :: 0 <= d < |ds| && ds[d].notification == n && ds[d].status == s
  }

  /** The status an alert has from its deliveries: the first of sent, waiting, held,
      failed and dropped that one of them has. */
  function Best(ds: Deliveries, n: nat): Status {
    if Has(ds, n, Sent) then Sent
    else if Has(ds, n, Pending) then Pending
    else if Has(ds, n, Held) then Held
    else if Has(ds, n, Failed) then Failed
    else Dropped
  }

  function MostAttempts(ds: Deliveries, n: nat): nat {
    if ds == [] then 0
    else
      var rest := MostAttempts(ds[..|ds| - 1], n);
      var d := ds[|ds| - 1];
      if d.notification == n && d.attempts > rest then d.attempts else rest
  }

  function SoonestPending(ds: Deliveries, n: nat): Option<int> {
    if ds == [] then None
    else
      var rest := SoonestPending(ds[..|ds| - 1], n);
      var d := ds[|ds| - 1];
      if d.notification == n && d.status == Pending
      then (if rest.None? || d.nextAt < rest.value then Some(d.nextAt) else rest)
      else rest
  }

  function Summary(row: Notification, ds: Deliveries, n: nat): Notification {
    if !Routed(ds, n) then row
    else row.(status := Best(ds, n), attempts := MostAttempts(ds, n),
              nextAt := SoonestPending(ds, n).GetOr(row.nextAt))
  }

  lemma {:induction false} RoutedStep(ds: Deliveries, n: nat)
    requires ds != []
    ensures Routed(ds, n) <==> Routed(ds[..|ds| - 1], n) || ds[|ds| - 1].notification == n
  {
    var rest := ds[..|ds| - 1];
    if Routed(rest, n) {
      var d :| 0 <= d < |rest| && rest[d].notification == n;
      assert ds[d].notification == n;
    }
    if Routed(ds, n) && ds[|ds| - 1].notification != n {
      var d :| 0 <= d < |ds| && ds[d].notification == n;
      assert rest[d].notification == n;
    }
  }

  /** How good an outcome is for the person waiting for it. */
  function Rank(s: Status): nat {
    match s
    case Sent => 4
    case Pending => 3
    case Held => 2
    case Failed => 1
    case Dropped => 0
  }

  /** A routed alert has the status of one of its deliveries, and none of them has
      a better one. */
  lemma {:induction false} BestIsTheBest(ds: Deliveries, n: nat)
    requires Routed(ds, n)
    ensures Has(ds, n, Best(ds, n))
    ensures forall d :: 0 <= d < |ds| && ds[d].notification == n ==> Rank(ds[d].status) <= Rank(Best(ds, n))
  {
    var d :| 0 <= d < |ds| && ds[d].notification == n;
    assert Has(ds, n, ds[d].status);
    forall e | 0 <= e < |ds| && ds[e].notification == n ensures Rank(ds[e].status) <= Rank(Best(ds, n)) {
      assert Has(ds, n, ds[e].status);
    }
  }

  /** Its attempts are the most of any of them, and its next the soonest of those
      still waiting. */
  lemma {:induction false} MostAndSoonest(ds: Deliveries, n: nat, d: nat)
    requires d < |ds| && ds[d].notification == n
    ensures ds[d].attempts <= MostAttempts(ds, n)
    ensures ds[d].status == Pending ==> SoonestPending(ds, n).Some? && SoonestPending(ds, n).value <= ds[d].nextAt
    decreases |ds|
  {
    if d < |ds| - 1 {
      MostAndSoonest(ds[..|ds| - 1], n, d);
    }
  }

  lemma {:induction false} MostAndSoonestAreSomeones(ds: Deliveries, n: nat)
    ensures Routed(ds, n) ==>
              exists d :: 0 <= d < |ds| && ds[d].notification == n && ds[d].attempts == MostAttempts(ds, n)
    ensures SoonestPending(ds, n).Some? ==>
              exists d ::
                && 0 <= d < |ds| && ds[d].notification == n && ds[d].status == Pending
                && ds[d].nextAt == SoonestPending(ds, n).value
    decreases |ds|
  {
    if ds != [] {
      var k := |ds| - 1;
      var rest := ds[..k];
      MostAndSoonestAreSomeones(rest, n);
      if Routed(rest, n) {
        var d :| 0 <= d < k && rest[d].notification == n && rest[d].attempts == MostAttempts(rest, n);
        assert ds[d] == rest[d];
      } else {
        NothingMost(rest, n);
      }
      if SoonestPending(rest, n).Some? {
        var e :| 0 <= e < k && rest[e].notification == n && rest[e].status == Pending
                 && rest[e].nextAt == SoonestPending(rest, n).value;
        assert ds[e] == rest[e];
      }
      RoutedStep(ds, n);
    }
  }

  lemma {:induction false} NothingMost(ds: Deliveries, n: nat)
    requires !Routed(ds, n)
    ensures MostAttempts(ds, n) == 0
    decreases |ds|
  {
    if ds != [] {
      RoutedStep(ds, n);
      NothingMost(ds[..|ds| - 1], n);
    }
  }

  /** An alert's deliveries are the same in two states. */
  ghost predicate SameFor(a: Deliveries, b: Deliveries, n: nat) {
    && |a| == |b|
    && forall d :: 0 <= d < |a| ==> (a[d] == b[d] || (a[d].notification != n && b[d].notification != n))
  }

  lemma {:induction false} SameFolds(a: Deliveries, b: Deliveries, n: nat)
    requires SameFor(a, b, n)
    ensures MostAttempts(a, n) == MostAttempts(b, n) && SoonestPending(a, n) == SoonestPending(b, n)
  {
    if a != [] {
      SameFolds(a[..|a| - 1], b[..|b| - 1], n);
    }
  }

  lemma SameHas(a: Deliveries, b: Deliveries, n: nat, s: Status)
    requires SameFor(a, b, n) && Has(a, n, s)
    ensures Has(b, n, s)
  {
    var d :| 0 <= d < |a| && a[d].notification == n && a[d].status == s;
    assert b[d] == a[d];
  }

  lemma SameRouted(a: Deliveries, b: Deliveries, n: nat)
    requires SameFor(a, b, n) && Routed(a, n)
    ensures Routed(b, n)
  {
    var d :| 0 <= d < |a| && a[d].notification == n;
    assert b[d] == a[d];
  }

  lemma {:induction false} SameSummary(row: Notification, a: Deliveries, b: Deliveries, n: nat)
    requires SameFor(a, b, n)
    ensures Summary(row, a, n) == Summary(row, b, n)
  {
    SameFolds(a, b, n);
    forall s: Status ensures Has(a, n, s) <==> Has(b, n, s) {
      if Has(a, n, s) { SameHas(a, b, n, s); }
      if Has(b, n, s) { SameHas(b, a, n, s); }
    }
    if Routed(a, n) { SameRouted(a, b, n); }
    if Routed(b, n) { SameRouted(b, a, n); }
  }

  /** Every delivery of an alert still carries the alert's own state. */
  ghost predicate CarriedOver(row: Notification, ds: Deliveries, n: nat) {
    forall d :: 0 <= d < |ds| && ds[d].notification == n ==>
      ds[d].status == row.status && ds[d].attempts == row.attempts && ds[d].nextAt == row.nextAt
  }

  lemma {:induction false} CarriedFolds(row: Notification, ds: Deliveries, n: nat)
    requires CarriedOver(row, ds, n)
    ensures MostAttempts(ds, n) == if Routed(ds, n) then row.attempts else 0
    ensures SoonestPending(ds, n) == if Routed(ds, n) && row.status == Pending then Some(row.nextAt) else None
  {
    if ds != [] {
      var rest := ds[..|ds| - 1];
      CarriedFolds(row, rest, n);
      RoutedStep(ds, n);
    }
  }

  lemma {:induction false} CarriedSummary(row: Notification, ds: Deliveries, n: nat)
    requires CarriedOver(row, ds, n) && IsOpen(row.status)
    ensures Summary(row, ds, n) == row
  {
    CarriedFolds(row, ds, n);
    if Routed(ds, n) {
      var d :| 0 <= d < |ds| && ds[d].notification == n;
      assert Has(ds, n, row.status);
    }
  }

  // ------------------------------------------------------------------- the invariants

  /** Every delivery is of an alert there is, and no alert has two to one channel. */
  ghost predicate DeliveriesOk(ns: Notifications, ds: Deliveries) {
    && (forall d :: 0 <= d < |ds| ==> ds[d].notification < |ns|)
    && (forall d, e :: 0 <= d < e < |ds| && ds[d].notification == ds[e].notification ==> ds[d].channel != ds[e].channel)
  }

  predicate WithinLimit(status: Status, attempts: nat) {
    attempts <= MAX_ATTEMPTS && (IsOpen(status) ==> attempts < MAX_ATTEMPTS)
  }

  /** Nothing is ever tried more than the limit, and what may still be tried has
      been tried less. */
  ghost predicate AttemptsOk(ns: Notifications, ds: Deliveries) {
    && (forall d :: 0 <= d < |ds| ==> WithinLimit(ds[d].status, ds[d].attempts))
    && (forall n :: 0 <= n < |ns| && !Routed(ds, n) ==> WithinLimit(ns[n].status, ns[n].attempts))
  }

  /** Every alert is the summary of its own deliveries: above all, its status is
      the best of theirs. */
  ghost predicate SummariesOk(ns: Notifications, ds: Deliveries) {
    forall n :: 0 <= n < |ns| ==> ns[n] == Summary(ns[n], ds, n)
  }

  /** No two alerts were queued for one event. */
  ghost predicate DedupeOk(ns: Notifications) {
    forall i, j :: 0 <= i < j < |ns| && ns[i].dedupe.Some? ==> ns[i].dedupe != ns[j].dedupe
  }

  function Times(sends: seq<nat>, d: nat): nat {
    if sends == [] then 0
    else Times(sends[..|sends| - 1], d) + if sends[|sends| - 1] == d then 1 else 0
  }

  /** The attempts counted on a delivery are those it was made with and those in
      the log of everything ever handed to a channel. */
  ghost predicate Tallied(ds: Deliveries, carried: seq<nat>, sends: seq<nat>) {
    && |carried| == |ds|
    && (forall d :: 0 <= d < |ds| ==> ds[d].attempts == carried[d] + Times(sends, d))
    && (forall i :: 0 <= i < |sends| ==> sends[i] < |ds|)
  }

  lemma TimesStep(sends: seq<nat>, x: nat, d: nat)
    ensures Times(sends + [x], d) == Times(sends, d) + if x == d then 1 else 0
  {
    assert (sends + [x])[..|sends|] == sends;
  }

  lemma TalliedStep(ds: Deliveries, carried: seq<nat>, sends: seq<nat>, x: nat, row: Delivery)
    requires Tallied(ds, carried, sends) && x < |ds| && row.attempts == ds[x].attempts + 1
    ensures Tallied(ds[x := row], carried, sends + [x])
  {
    forall d | 0 <= d < |ds| ensures ds[x := row][d].attempts == carried[d] + Times(sends + [x], d) {
      TimesStep(sends, x, d);
    }
  }

  lemma {:induction false} NeverSent(sends: seq<nat>, d: nat)
    requires d !in sends
    ensures Times(sends, d) == 0
  {
    if sends != [] {
      NeverSent(sends[..|sends| - 1], d);
    }
  }

  lemma TalliedMore(ds: Deliveries, carried: seq<nat>, sends: seq<nat>, row: Delivery)
    requires Tallied(ds, carried, sends)
    ensures Tallied(ds + [row], carried + [row.attempts], sends)
  {
    NeverSent(sends, |ds|);
  }

  /** The same deliveries, of the same alerts to the same channels; a settled one
      as it was; and none with more than `more` attempts added. */
  ghost predicate Moved(before: Deliveries, after: Deliveries, more: nat) {
    && |before| <= |after|
    && forall d :: 0 <= d < |before| ==> MovedOne(before[d], after[d], more)
  }

  ghost predicate MovedOne(before: Delivery, after: Delivery, more: nat) {
    && after.notification == before.notification && after.channel == before.channel
    && (IsSettled(before.status) ==> after == before)
    && before.attempts <= after.attempts <= before.attempts + more
  }

  /** ... and so along any run: what is settled never changes again. */
  lemma MovedTwice(a: Deliveries, b: Deliveries, c: Deliveries, m: nat, n: nat)
    requires Moved(a, b, m) && Moved(b, c, n)
    ensures Moved(a, c, m + n)
  {
    forall d | 0 <= d < |a| ensures MovedOne(a[d], c[d], m + n) {
      assert MovedOne(a[d], b[d], m) && MovedOne(b[d], c[d], n);
    }
  }

  /** Rows change in place, and the alerts of those that did are summed up again. */
  ghost predicate Resummed(ns: Notifications, before: Deliveries, after: Deliveries, ids: set<nat>,
          now: Notifications) {
    && |after| == |before| && |now| == |ns|
    && (forall d :: 0 <= d < |before| ==> after[d].notification == before[d].notification
                                          && (after[d] == before[d] || before[d].notification in ids))
    && (forall n :: 0 <= n < |ns| ==> now[n] == if n in ids then Summary(ns[n], after, n) else ns[n])
  }

  lemma {:induction false} SummariesAfter(ns: Notifications, before: Deliveries, after: Deliveries, ids: set<nat>,
          now: Notifications)
    requires SummariesOk(ns, before) && Resummed(ns, before, after, ids, now)
    ensures SummariesOk(now, after)
  {
    forall n | 0 <= n < |ns| ensures now[n] == Summary(now[n], after, n) {
      if n !in ids {
        SameSummary(ns[n], before, after, n);
      }
    }
  }

  lemma RoutedBefore(before: Deliveries, after: Deliveries, n: nat)
    requires |after| == |before| && forall d :: 0 <= d < |before| ==> after[d].notification == before[d].notification
    ensures Routed(before, n) <==> Routed(after, n)
  {
    if Routed(before, n) {
      var d :| 0 <= d < |before| && before[d].notification == n;
      assert after[d].notification == n;
    }
  }

  lemma {:induction false} LimitsAfter(ns: Notifications, before: Deliveries, after: Deliveries, ids: set<nat>,
          now: Notifications)
    requires AttemptsOk(ns, before) && Resummed(ns, before, after, ids, now)
    requires forall d :: 0 <= d < |after| ==> WithinLimit(after[d].status, after[d].attempts)
    ensures AttemptsOk(now, after)
  {
    forall n | 0 <= n < |now| && !Routed(after, n) ensures WithinLimit(now[n].status, now[n].attempts) {
      RoutedBefore(before, after, n);
    }
  }

  lemma OthersAfter(ns: Notifications, before: Deliveries, after: Deliveries, ids: set<nat>, now: Notifications)
    requires DeliveriesOk(ns, before) && DedupeOk(ns) && Resummed(ns, before, after, ids, now)
    requires forall d :: 0 <= d < |before| ==> after[d].channel == before[d].channel
    ensures DeliveriesOk(now, after) && DedupeOk(now)
  {
    forall n | 0 <= n < |ns| ensures now[n].dedupe == ns[n].dedupe {
    }
  }

  // ---------------------------------------------------------------------- the queries

  /** The rows a dispatch asks the database for. */
  datatype Query = Unrouted | Open | Due(key: ChannelKey, now: int) | Waiting(key: ChannelKey)

  predicate Matches(q: Query, ns: Notifications, ds: Deliveries, i: nat) {
    match q
    case Unrouted => i < |ns| && IsOpen(ns[i].status) && !Routed(ds, i)
    case Open => i < |ds| && IsOpen(ds[i].status)
    case Due(key, now) => i < |ds| && ds[i].channel == key && ds[i].status == Pending && ds[i].nextAt <= now
    case Waiting(key) => i < |ds| && ds[i].channel == key && ds[i].status == Held
  }

  /** The first `limit` of `ids` that match. */
  function Select(q: Query, ns: Notifications, ds: Deliveries, ids: seq<nat>, limit: nat): (rows: seq<nat>)
    ensures forall i :: i in rows ==> i in ids && Matches(q, ns, ds, i)
    ensures Distinct(ids) ==> Distinct(rows)
    ensures |rows| <= limit
    ensures |rows| < limit ==> forall i :: i in ids && Matches(q, ns, ds, i) ==> i in rows
  {
    if ids == [] || limit == 0 then []
    else if Matches(q, ns, ds, ids[0]) then
      var rest := Select(q, ns, ds, ids[1..], limit - 1);
      [ids[0]] + rest
    else Select(q, ns, ds, ids[1..], limit)
  }

  function Ids(n: nat): (ids: seq<nat>)
    ensures |ids| == n && forall k :: 0 <= k < n ==> ids[k] == k
    ensures Distinct(ids) && forall i :: i in ids <==> 0 <= i < n
  {
    if n == 0 then [] else Ids(n - 1) + [n - 1]
  }

  function OpenIds(ns: Notifications, ds: Deliveries): seq<nat> {
    Select(Open, ns, ds, Ids(|ds|), OPEN_LIMIT)
  }

  function DueOn(ns: Notifications, ds: Deliveries, key: ChannelKey, now: int): seq<nat> {
    Select(Due(key, now), ns, ds, OpenIds(ns, ds), DUE_LIMIT)
  }

  function HeldOn(ns: Notifications, ds: Deliveries, key: ChannelKey): seq<nat> {
    Select(Waiting(key), ns, ds, OpenIds(ns, ds), HELD_LIMIT)
  }
}
