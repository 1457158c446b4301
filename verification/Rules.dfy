/** Threshold rules: one small state machine per key (snmp_alerts.py). */
module Rules {
  import opened Prelude

  const GAP_POLLS := 3

  /** What a poll tells a rule: whether the threshold is crossed, whether the value
      is clear of it by the margin, and the settings then. */
  datatype Poll = Poll(now: int, breached: bool, cleared: bool, hold: int, minPolls: int, interval: int)

  /** An alert_state row. */
  datatype State = State(since: int, polls: nat, seenAt: int, fired: bool, notified: bool)

  datatype Outcome = Outcome(fired: bool, cleared: bool, notified: bool, since: Option<int>)

  /** Too long since the last poll to count the time between. */
  predicate GapTooLong(before: int, p: Poll) {
    p.now - before > GAP_POLLS * Max(p.interval, 1)
  }

  /** The row after one poll, and what the poll decided. */
  function Step(row: Option<State>, p: Poll): (Option<State>, Outcome) {
    var s := if row.Some? && !row.value.fired && GapTooLong(row.value.seenAt, p) then None else row;
    if p.breached then
      var r := s.GetOr(State(p.now, 0, p.now, false, false)).(seenAt := p.now);
      var counted := r.(polls := r.polls + 1);
      if !counted.fired && counted.polls >= p.minPolls && p.now - counted.since >= p.hold
      then (Some(counted.(fired := true)), Outcome(true, false, false, Some(counted.since)))
      else (Some(counted), Outcome(false, false, false, Some(counted.since)))
    else if s.None? then (None, Outcome(false, false, false, None))
    else if s.value.fired && !p.cleared then
      (Some(s.value.(seenAt := p.now)), Outcome(false, false, false, Some(s.value.since)))
    else (None, Outcome(false, s.value.fired, s.value.notified, Some(s.value.since)))
  }

  function After(ps: seq<Poll>): Option<State> {
    if ps == [] then None else Step(After(ps[..|ps| - 1]), ps[|ps| - 1]).0
  }

  function Last(ps: seq<Poll>): Outcome
    requires ps != []
  {
    Step(After(ps[..|ps| - 1]), ps[|ps| - 1]).1
  }

  // ------------------------------------------------------ said without the machine

  /** Every poll from `j` on was over the line, with no gap between them. */
  ghost predicate Unbroken(ps: seq<Poll>, j: int) {
    && 0 <= j < |ps|
    && (forall k :: j <= k < |ps| ==> ps[k].breached)
    && (forall k :: j < k < |ps| ==> !GapTooLong(ps[k - 1].now, ps[k]))
  }

  /** The current unbroken run of breached polls begins at `j`. */
  ghost predicate RunBegins(ps: seq<Poll>, j: int) {
    Unbroken(ps, j) && !Unbroken(ps, j - 1)
  }

  /** The current run has lasted: enough polls, and the hold time. */
  ghost predicate Lasted(ps: seq<Poll>) {
    exists j ::
      RunBegins(ps, j) && |ps| - j >= ps[|ps| - 1].minPolls && ps[|ps| - 1].now - ps[j].now >= ps[|ps| - 1].hold
  }

  predicate AllClear(p: Poll) {
    !p.breached && p.cleared
  }

  /** An alert fired and no all-clear has been seen since. */
  ghost predicate Standing(ps: seq<Poll>) {
    exists k :: StandingSince(ps, k)
  }

  /** The poll before position `k` fired the alert. */
  ghost predicate FiredAt(ps: seq<Poll>, k: int) {
    0 < k <= |ps| && Last(ps[..k]).fired
  }

  // ------------------------------------------------------------------- the theorem

  lemma FiredBefore(ps: seq<Poll>, n: nat, k: int)
    requires n <= |ps|
    ensures FiredAt(ps[..n], k) <==> FiredAt(ps, k) && k <= n
  {
    if 0 < k <= n {
      assert ps[..n][..k] == ps[..k];
    }
  }

  /** An alert fired at `k` and no all-clear seen since. */
  ghost predicate StandingSince(ps: seq<Poll>, k: int) {
    FiredAt(ps, k) && forall m :: k <= m < |ps| ==> !AllClear(ps[m])
  }

  lemma StandingLonger(ps: seq<Poll>, k: int)
    requires ps != [] && k < |ps|
    ensures StandingSince(ps, k) <==> StandingSince(ps[..|ps| - 1], k) && !AllClear(ps[|ps| - 1])
  {
    var n := |ps| - 1;
    FiredBefore(ps, n, k);
    forall m | 0 <= m < n ensures ps[..n][m] == ps[m] {
    }
  }

  lemma {:induction false} StandingStep(ps: seq<Poll>)
    requires ps != []
    ensures Standing(ps) <==>
            Last(ps).fired || (Standing(ps[..|ps| - 1]) && !AllClear(ps[|ps| - 1]))
  {
    var n := |ps| - 1;
    assert ps[..|ps|] == ps;
    if Last(ps).fired {
      assert StandingSince(ps, |ps|);
    } else if Standing(ps) {
      var k :| StandingSince(ps, k);
      StandingLonger(ps, k);
    } else if Standing(ps[..n]) {
      var k :| StandingSince(ps[..n], k);
      StandingLonger(ps, k);
    }
  }

  lemma {:induction false} UnbrokenStep(ps: seq<Poll>, j: int)
    requires ps != []
    ensures Unbroken(ps, j) <==>
            ps[|ps| - 1].breached && 0 <= j < |ps| &&
            (j == |ps| - 1 || (Unbroken(ps[..|ps| - 1], j) && !GapTooLong(ps[|ps| - 2].now, ps[|ps| - 1])))
  {
    var n := |ps| - 1;
    var before := ps[..n];
    if 0 <= j < n && Unbroken(before, j) && ps[n].breached && !GapTooLong(ps[n - 1].now, ps[n]) {
      forall k | j <= k < |ps| ensures ps[k].breached {
        if k < n { assert ps[k] == before[k]; }
      }
      forall k | j < k < |ps| ensures !GapTooLong(ps[k - 1].now, ps[k]) {
        if k < n { assert ps[k] == before[k] && ps[k - 1] == before[k - 1]; }
      }
    }
    if Unbroken(ps, j) && j < n {
      forall k | j <= k < n ensures before[k].breached {
        assert before[k] == ps[k];
      }
      forall k | j < k < n ensures !GapTooLong(before[k - 1].now, before[k]) {
        assert before[k] == ps[k] && before[k - 1] == ps[k - 1];
      }
    }
  }

  /** What the row remembers, in terms of the polls themselves. */
  ghost predicate Remembers(ps: seq<Poll>) {
    match After(ps)
    case None => !Standing(ps) && (ps == [] || !ps[|ps| - 1].breached)
    case Some(s) =>
      if s.fired then Standing(ps)
      else
        && !Standing(ps) && ps != [] && s.seenAt == ps[|ps| - 1].now && !s.notified
        && exists j :: RunBegins(ps, j) && s.since == ps[j].now && s.polls == |ps| - j
  }

  lemma {:induction false} RunContinues(ps: seq<Poll>, j: int)
    requires |ps| > 1 && RunBegins(ps[..|ps| - 1], j)
    requires ps[|ps| - 1].breached && !GapTooLong(ps[|ps| - 2].now, ps[|ps| - 1])
    ensures RunBegins(ps, j)
  {
    UnbrokenStep(ps, j);
    UnbrokenStep(ps, j - 1);
  }

  lemma {:induction false} RunBeginsAfresh(ps: seq<Poll>)
    requires ps != [] && ps[|ps| - 1].breached
    requires |ps| == 1 || !ps[|ps| - 2].breached || GapTooLong(ps[|ps| - 2].now, ps[|ps| - 1])
    ensures RunBegins(ps, |ps| - 1)
  {
    UnbrokenStep(ps, |ps| - 1);
    UnbrokenStep(ps, |ps| - 2);
  }

  lemma {:induction false} RunIsUnique(ps: seq<Poll>, i: int, j: int)
    requires RunBegins(ps, i) && RunBegins(ps, j)
    ensures i == j
  {
    if i < j {
      assert Unbroken(ps, j - 1);
    } else if j < i {
      assert Unbroken(ps, i - 1);
    }
  }

  lemma {:induction false} RowRemembers(ps: seq<Poll>)
    ensures Remembers(ps)
    decreases |ps|
  {
    if ps != [] {
      var n := |ps| - 1;
      var before, p := ps[..n], ps[n];
      RowRemembers(before);
      StandingStep(ps);
      var row := After(before);
      if p.breached && !(row.Some? && row.value.fired) {
        if row.Some? && !GapTooLong(row.value.seenAt, p) {
          var j :| RunBegins(before, j) && row.value.since == before[j].now && row.value.polls == n - j;
          RunContinues(ps, j);
          assert ps[j] == before[j];
        } else {
          RunBeginsAfresh(ps);
        }
      }
    }
  }

  /** A poll fires exactly when no alert stands and the current unbroken run of
      breached polls has now lasted: since the same test on every poll before it
      in the run said no, this is the first poll at which it has. */
  lemma {:induction false} FiresExactly(ps: seq<Poll>)
    requires ps != []
    ensures Last(ps).fired <==> !Standing(ps[..|ps| - 1]) && Lasted(ps)
  {
    var n := |ps| - 1;
    var before, p := ps[..n], ps[n];
    RowRemembers(before);
    var row := After(before);
    if p.breached && !(row.Some? && row.value.fired) {
      var start: int;
      if row.Some? && !GapTooLong(row.value.seenAt, p) {
        var j :| RunBegins(before, j) && row.value.since == before[j].now && row.value.polls == n - j;
        RunContinues(ps, j);
        assert ps[j] == before[j];
        start := j;
      } else {
        RunBeginsAfresh(ps);
        start := n;
      }
      forall j | RunBegins(ps, j) ensures j == start {
        RunIsUnique(ps, start, j);
      }
    } else if !p.breached {
      assert !Lasted(ps);
    }
  }

  /** A poll clears exactly when an alert stands and the value is clear of the
      threshold by the margin: until then a fired alert stands. */
  lemma {:induction false} ClearsExactly(ps: seq<Poll>)
    requires ps != []
    ensures Last(ps).cleared <==> Standing(ps[..|ps| - 1]) && AllClear(ps[|ps| - 1])
  {
    RowRemembers(ps[..|ps| - 1]);
  }

  /** The in-between band does not keep an unfired streak: after any poll that is
      not over the line, an alert can only fire by a run that begins later. */
  lemma {:induction false} BandBreaksStreak(ps: seq<Poll>, k: nat)
    requires k < |ps| && !ps[k].breached && Last(ps).fired
    ensures exists j :: RunBegins(ps, j) && j > k
  {
    FiresExactly(ps);
    var j :| RunBegins(ps, j) && |ps| - j >= ps[|ps| - 1].minPolls && ps[|ps| - 1].now - ps[j].now >= ps[|ps| - 1].hold;
  }

  /** Fires and clears strictly alternate: between two fires there is a clear. */
  lemma {:induction false} ClearBetweenFires(ps: seq<Poll>, i: nat, k: nat)
    requires 0 < i < k <= |ps| && Last(ps[..i]).fired && Last(ps[..k]).fired
    ensures exists c :: i < c < k && Last(ps[..c]).cleared
  {
    FiresExactly(ps[..k]);
    assert ps[..k][..k - 1] == ps[..k - 1];
    var m := FirstNotStanding(ps, i, k - 1);
    ClearsExactly(ps[..m]);
    StandingStep(ps[..m]);
    assert ps[..m][..m - 1] == ps[..m - 1];
  }

  lemma ClearedMeans(ps: seq<Poll>, i: nat)
    requires 0 < i <= |ps| && Last(ps[..i]).cleared
    ensures Standing(ps[..i - 1]) && !Standing(ps[..i])
  {
    ClearsExactly(ps[..i]);
    StandingStep(ps[..i]);
    assert ps[..i][..i - 1] == ps[..i - 1];
  }

  /** ... and between two clears a fire. */
  lemma {:induction false} FireBetweenClears(ps: seq<Poll>, i: nat, k: nat)
    requires 0 < i < k <= |ps| && Last(ps[..i]).cleared && Last(ps[..k]).cleared
    ensures exists f :: i < f < k && Last(ps[..f]).fired
  {
    ClearedMeans(ps, k);
    ClearedMeans(ps, i);
    var m := FirstStanding(ps, i, k - 1);
    StandingStep(ps[..m]);
    assert ps[..m][..m - 1] == ps[..m - 1];
  }

  /** A stretch that starts with an alert standing and ends with none. */
  lemma {:induction false} FirstNotStanding(ps: seq<Poll>, i: nat, k: nat) returns (m: nat)
    requires 0 < i <= k <= |ps| && Last(ps[..i]).fired && !Standing(ps[..k])
    ensures i < m <= k && Standing(ps[..m - 1]) && !Standing(ps[..m])
  {
    StandingStep(ps[..i]);
    m := k;
    while !Standing(ps[..m - 1])
      invariant i < m <= k && !Standing(ps[..m])
      decreases m
    {
      m := m - 1;
    }
  }

  lemma {:induction false} FirstStanding(ps: seq<Poll>, i: nat, k: nat) returns (m: nat)
    requires 0 < i <= k <= |ps| && !Standing(ps[..i]) && Standing(ps[..k])
    ensures i < m <= k && !Standing(ps[..m - 1]) && Standing(ps[..m])
  {
    m := k;
    while Standing(ps[..m - 1])
      invariant i < m <= k && Standing(ps[..m])
      decreases m
    {
      m := m - 1;
    }
  }
}

/** The rules' rows, their incidents on the dashboard and the messages they
    queue, for every key at once (snmp_alerts.py, suppressions.py, maintenance.py). */
module RuleBooks {
  import opened Prelude
  import opened Rules

  type Key = string

  datatype Incident = Incident(key: Key, openedAt: int, closed: Option<Closing>)

  datatype Closing = Closing(at: int, resolution: string)

  /** A queued message, by the key that keeps it from being queued twice: the
      problem of one episode of a rule, its recovery, or what a maintenance
      window left behind. */
  datatype Message =
    | Fire(key: Key, since: int)
    | Recovery(key: Key, since: int)
    | Leftover(window: int, end: int, key: Key)

  /** Which keys a reset takes in. */
  datatype Reach = Exactly(key: Key) | StartingWith(prefix: string)

  predicate Covers(r: Reach, k: Key) {
    match r
    case Exactly(key) => k == key
    case StartingWith(p) => p <= k
  }

  function Close(i: Incident, reach: Reach, now: int, resolution: string): Incident {
    if i.closed.None? && Covers(reach, i.key) then i.(closed := Some(Closing(now, resolution))) else i
  }

  /** One episode of a rule: from the poll its streak began. */
  type Episode = (Key, int)

  type States = map<Key, State>

  function RowOf(states: States, key: Key): Option<State> {
    if key in states then Some(states[key]) else None
  }

  function WithRow(states: States, key: Key, row: Option<State>): States {
    if row.Some? then states[key := row.value] else states - {key}
  }

  predicate IsFired(states: States, key: Key) {
    key in states && states[key].fired
  }

  /** At most one incident is open for a key, and only while its rule is fired. */
  ghost predicate IncidentsMatch(states: States, incidents: seq<Incident>) {
    && (forall i :: 0 <= i < |incidents| && incidents[i].closed.None? ==> IsFired(states, incidents[i].key))
    && (forall i, j :: 0 <= i < j < |incidents| && incidents[i].closed.None? && incidents[j].closed.None? ==>
          incidents[i].key != incidents[j].key)
  }

  /** The message that told of an episode. */
  predicate Tells(m: Message, e: Episode) {
    m == Fire(e.0, e.1) || (m.Leftover? && m.key == e.0)
  }

  /** No message is queued twice, each told episode has a problem message of its
      own, and a recovery stands after its own episode's. */
  ghost predicate OutboxMatches(outbox: seq<Message>, told: map<Episode, nat>) {
    Distinct(outbox) && ToldMatches(outbox, told) && MessagesMatch(outbox, told)
  }

  ghost predicate ToldMatches(outbox: seq<Message>, told: map<Episode, nat>) {
    && (forall e :: e in told ==> told[e] < |outbox| && Tells(outbox[told[e]], e))
    && (forall e, f :: e in told && f in told && e != f ==> told[e] != told[f])
  }

  ghost predicate MessagesMatch(outbox: seq<Message>, told: map<Episode, nat>) {
    forall i :: 0 <= i < |outbox| ==> MessageMatches(outbox[i], i, told)
  }

  predicate MessageMatches(m: Message, i: nat, told: map<Episode, nat>) {
    match m
    case Fire(key, since) => (key, since) in told
    case Recovery(key, since) => (key, since) in told && told[(key, since)] < i
    case Leftover(_, _, _) => true
  }

  /** A rule marked notified was told of. */
  ghost predicate NotifiedMatch(states: States, told: map<Episode, nat>) {
    forall k :: k in states && states[k].notified ==> states[k].fired && (k, states[k].since) in told
  }

  /** Leftovers are only of window ends already dealt with. */
  ghost predicate LeftoversMatch(outbox: seq<Message>, finishedUntil: map<int, int>) {
    forall i :: 0 <= i < |outbox| && outbox[i].Leftover? ==>
      outbox[i].window in finishedUntil && outbox[i].end <= finishedUntil[outbox[i].window]
  }

  /** A problem message is added for an episode; one told of before keeps its first. */
  ghost function ToldBy(told: map<Episode, nat>, e: Episode, at: nat): map<Episode, nat> {
    if e in told then told else told[e := at]
  }

  lemma ToldOneMore(outbox: seq<Message>, told: map<Episode, nat>, m: Message, e: Episode)
    requires ToldMatches(outbox, told) && Tells(m, e)
    ensures ToldMatches(outbox + [m], ToldBy(told, e, |outbox|))
  {
  }

  lemma MessageAdded(outbox: seq<Message>, told: map<Episode, nat>, m: Message, after: map<Episode, nat>)
    requires MessagesMatch(outbox, told) && (forall e :: e in told ==> e in after && after[e] == told[e])
    requires MessageMatches(m, |outbox|, after)
    ensures MessagesMatch(outbox + [m], after)
  {
    forall i | 0 <= i < |outbox + [m]| ensures MessageMatches((outbox + [m])[i], i, after) {
      if i < |outbox| {
        assert MessageMatches(outbox[i], i, told);
      }
    }
  }

  lemma ProblemAdded(outbox: seq<Message>, told: map<Episode, nat>, m: Message, e: Episode)
    requires OutboxMatches(outbox, told) && m !in outbox && Tells(m, e)
    ensures OutboxMatches(outbox + [m], ToldBy(told, e, |outbox|))
  {
    ToldOneMore(outbox, told, m, e);
    MessageAdded(outbox, told, m, ToldBy(told, e, |outbox|));
  }

  lemma RecoveryAdded(outbox: seq<Message>, told: map<Episode, nat>, e: Episode)
    requires OutboxMatches(outbox, told) && Recovery(e.0, e.1) !in outbox && e in told
    ensures OutboxMatches(outbox + [Recovery(e.0, e.1)], told)
  {
    MessageAdded(outbox, told, Recovery(e.0, e.1), told);
  }

  lemma RowChanged(states: States, incidents: seq<Incident>, key: Key, row: Option<State>)
    requires IncidentsMatch(states, incidents)
    requires IsFired(states, key) ==> row.Some? && row.value.fired
    ensures IncidentsMatch(WithRow(states, key, row), incidents)
  {
    var after := WithRow(states, key, row);
    forall i | 0 <= i < |incidents| && incidents[i].closed.None? ensures IsFired(after, incidents[i].key) {
      assert IsFired(states, incidents[i].key);
    }
  }

  ghost predicate ClosedFrom(before: seq<Incident>, after: seq<Incident>, reach: Reach, now: int, resolution: string) {
    |after| == |before| && forall i :: 0 <= i < |after| ==> after[i] == Close(before[i], reach, now, resolution)
  }

  ghost predicate IsOpen(incidents: seq<Incident>, key: Key) {
    exists i :: 0 <= i < |incidents| && incidents[i].closed.None? && incidents[i].key == key
  }

  ghost function Opened(incidents: seq<Incident>, key: Key, since: int): seq<Incident> {
    if IsOpen(incidents, key) then incidents else incidents + [Incident(key, since, None)]
  }

  lemma RowTwice(states: States, key: Key, row: Option<State>)
    ensures RowOf(WithRow(states, key, row), key) == row
    ensures WithRow(WithRow(states, key, row), key, Marked(row)) == WithRow(states, key, Marked(row))
  {
  }

  lemma NowOpen(incidents: seq<Incident>, key: Key, since: int)
    ensures IsOpen(Opened(incidents, key, since), key)
  {
    if !IsOpen(incidents, key) {
      assert Opened(incidents, key, since)[|incidents|] == Incident(key, since, None);
    }
  }

  /** What one step of a rule does to the incidents: those open for it are
      closed when it clears, one is opened if a recorded rule is fired and none
      is open, and no other changes. */
  ghost predicate IncidentsStepped(before: seq<Incident>, after: seq<Incident>, key: Key, now: int, out: Outcome,
          standing: bool)
  {
    if out.cleared then ClosedFrom(before, after, Exactly(key), now, "recovered")
    else after == if standing && out.since.Some? then Opened(before, key, out.since.value) else before
  }

  function Marked(row: Option<State>): Option<State> {
    if row.Some? then Some(row.value.(notified := true)) else None
  }

  /** The outbox with this message in it, queued once. */
  function WithMessage(outbox: seq<Message>, m: Message): seq<Message> {
    if m in outbox then outbox else outbox + [m]
  }

  /** Exactly the open incidents of these keys are closed. */
  ghost predicate ClosedFor(before: seq<Incident>, after: seq<Incident>, keys: set<Key>, now: int, resolution: string) {
    |after| == |before| && forall i :: 0 <= i < |after| ==>
      after[i] == if before[i].closed.None? && before[i].key in keys
                  then before[i].(closed := Some(Closing(now, resolution))) else before[i]
  }

  lemma OneMoreClosed(first: seq<Incident>, before: seq<Incident>, after: seq<Incident>, keys: set<Key>, key: Key,
          now: int, resolution: string)
    requires ClosedFor(first, before, keys, now, resolution)
    requires ClosedFrom(before, after, Exactly(key), now, resolution)
    ensures ClosedFor(first, after, keys + {key}, now, resolution)
  {
  }

  lemma RowsDropped(states: States, before: seq<Incident>, after: seq<Incident>, reach: Reach, now: int,
          resolution: string, kept: States)
    requires IncidentsMatch(states, before) && ClosedFrom(before, after, reach, now, resolution)
    requires forall k :: k in states && !Covers(reach, k) ==> k in kept && kept[k] == states[k]
    ensures IncidentsMatch(kept, after)
  {
    forall i | 0 <= i < |after| && after[i].closed.None? ensures IsFired(kept, after[i].key) {
      assert before[i].closed.None? && !Covers(reach, before[i].key);
      assert IsFired(states, before[i].key);
    }
    forall i, j | 0 <= i < j < |after| && after[i].closed.None? && after[j].closed.None?
      ensures after[i].key != after[j].key
    {
      assert before[i].closed.None? && before[j].closed.None?;
    }
  }

  lemma IncidentOpened(states: States, incidents: seq<Incident>, key: Key, since: int)
    requires IncidentsMatch(states, incidents) && IsFired(states, key)
    requires forall i :: 0 <= i < |incidents| ==> !(incidents[i].closed.None? && incidents[i].key == key)
    ensures IncidentsMatch(states, incidents + [Incident(key, since, None)])
  {
  }

  /** The row a step leaves: fired if it fired, and marked only as before. */
  lemma StepFacts(row: Option<State>, p: Poll)
    ensures var (after, out) := Step(row, p);
            && (out.fired ==> after.Some? && after.value.fired && out.since == Some(after.value.since))
            && (out.cleared && out.notified ==> row.Some? && row.value.notified && out.since == Some(row.value.since))
            && (after.Some? && after.value.notified ==>
                  row.Some? && row.value.notified && after.value.since == row.value.since
                  && (row.value.fired ==> after.value.fired))
  {
  }

  lemma RowStepped(states: States, told: map<Episode, nat>, key: Key, p: Poll)
    requires NotifiedMatch(states, told)
    ensures NotifiedMatch(WithRow(states, key, Step(RowOf(states, key), p).0), told)
    ensures var out := Step(RowOf(states, key), p).1;
            out.cleared && out.notified ==> out.since.Some? && (key, out.since.value) in told
  {
    StepFacts(RowOf(states, key), p);
  }

  lemma RowNotified(states: States, before: map<Episode, nat>, told: map<Episode, nat>, key: Key)
    requires NotifiedMatch(states, before) && IsFired(states, key)
    requires (key, states[key].since) in told && forall e :: e in before ==> e in told
    ensures NotifiedMatch(states[key := states[key].(notified := true)], told)
  {
  }

  lemma LeftoverAdded(outbox: seq<Message>, finishedUntil: map<int, int>, m: Message)
    requires LeftoversMatch(outbox, finishedUntil)
    requires m.Leftover? ==> m.window in finishedUntil && m.end <= finishedUntil[m.window]
    ensures LeftoversMatch(outbox + [m], finishedUntil)
  {
  }

  /** What this end of the window has left so far is for incidents before `n`. */
  ghost predicate LeftoversFrom(outbox: seq<Message>, window: int, end: int, incidents: seq<Incident>, n: nat)
    requires n <= |incidents|
  {
    forall k :: Leftover(window, end, k) in outbox ==>
      exists j :: 0 <= j < n && incidents[j].closed.None? && incidents[j].key == k
  }

  lemma FreshEnd(outbox: seq<Message>, finishedUntil: map<int, int>, window: int, end: int)
    requires LeftoversMatch(outbox, finishedUntil)
    requires window in finishedUntil ==> finishedUntil[window] < end
    ensures forall k :: Leftover(window, end, k) !in outbox
    ensures LeftoversMatch(outbox, finishedUntil[window := end])
  {
  }

  lemma NotLeftYet(states: States, outbox: seq<Message>, window: int, end: int, incidents: seq<Incident>, i: nat)
    requires IncidentsMatch(states, incidents) && i < |incidents| && incidents[i].closed.None?
    requires LeftoversFrom(outbox, window, end, incidents, i)
    ensures Leftover(window, end, incidents[i].key) !in outbox
    ensures LeftoversFrom(outbox + [Leftover(window, end, incidents[i].key)], window, end, incidents, i + 1)
  {
    var m := Leftover(window, end, incidents[i].key);
    forall k | Leftover(window, end, k) in outbox + [m]
      ensures exists j :: 0 <= j < i + 1 && incidents[j].closed.None? && incidents[j].key == k
    {
      if Leftover(window, end, k) in outbox {
        var j :| 0 <= j < i && incidents[j].closed.None? && incidents[j].key == k;
      } else {
        assert incidents[i].key == k;
      }
    }
  }

  /** An open incident of a rule the window covered. */
  predicate Stands(i: Incident, covered: set<Key>) {
    i.closed.None? && i.key in covered
  }

  predicate Untold(states: States, key: Key) {
    key in states && !states[key].notified
  }

  /** What is left of the first incidents: one message for each that stands and
      was not told of, in their order. */
  ghost function LeftBehind(states: States, incidents: seq<Incident>, covered: set<Key>, window: int, end: int, n: nat)
    : seq<Message>
    requires n <= |incidents|
  {
    if n == 0 then []
    else
      var i := incidents[n - 1];
      LeftBehind(states, incidents, covered, window, end, n - 1)
      + if Stands(i, covered) && Untold(states, i.key) then [Leftover(window, end, i.key)] else []
  }

  /** One of the first incidents stands under this key. */
  ghost predicate StandsUpTo(incidents: seq<Incident>, covered: set<Key>, key: Key, n: nat)
    requires n <= |incidents|
  {
    exists j :: 0 <= j < n && incidents[j].key == key && Stands(incidents[j], covered)
  }

  /** The rules of those that stand are marked, and no row is changed otherwise. */
  ghost predicate MarkedUpTo(before: States, after: States, incidents: seq<Incident>, covered: set<Key>, n: nat)
    requires n <= |incidents|
  {
    after.Keys == before.Keys && forall k :: k in before ==>
      after[k] == if StandsUpTo(incidents, covered, k, n) then before[k].(notified := true) else before[k]
  }

  /** Where the end of a window has got to, from these rows and this outbox. */
  ghost predicate LeftSoFar(before: States, queued: seq<Message>, now: States, outbox: seq<Message>,
          incidents: seq<Incident>, covered: set<Key>, window: int, end: int, n: nat)
    requires n <= |incidents|
  {
    && outbox == queued + LeftBehind(before, incidents, covered, window, end, n)
    && LeftoversFrom(outbox, window, end, incidents, n) && MarkedUpTo(before, now, incidents, covered, n)
  }

  lemma NothingToLeave(before: States, now: States, outbox: seq<Message>, incidents: seq<Incident>, covered: set<Key>,
          window: int, end: int, i: nat)
    requires i < |incidents| && !Stands(incidents[i], covered)
    requires LeftoversFrom(outbox, window, end, incidents, i) && MarkedUpTo(before, now, incidents, covered, i)
    ensures LeftoversFrom(outbox, window, end, incidents, i + 1) && MarkedUpTo(before, now, incidents, covered, i + 1)
    ensures LeftBehind(before, incidents, covered, window, end, i + 1)
            == LeftBehind(before, incidents, covered, window, end, i)
  {
    forall k | Leftover(window, end, k) in outbox
      ensures exists j :: 0 <= j < i + 1 && incidents[j].closed.None? && incidents[j].key == k
    {
      var j :| 0 <= j < i && incidents[j].closed.None? && incidents[j].key == k;
    }
    forall k | k in before ensures StandsUpTo(incidents, covered, k, i + 1) <==> StandsUpTo(incidents, covered, k, i) {
      if StandsUpTo(incidents, covered, k, i) {
        var j :| 0 <= j < i && incidents[j].key == k && Stands(incidents[j], covered);
        assert j < i + 1;
      }
    }
  }

  /** Every standing rule the window covered has been told of. */
  ghost predicate AllTold(states: States, incidents: seq<Incident>, covered: set<Key>) {
    forall i :: 0 <= i < |incidents| && Stands(incidents[i], covered) ==>
      incidents[i].key in states && states[incidents[i].key].notified
  }

  lemma MarkedAreTold(before: States, after: States, incidents: seq<Incident>, covered: set<Key>)
    requires IncidentsMatch(after, incidents) && MarkedUpTo(before, after, incidents, covered, |incidents|)
    ensures AllTold(after, incidents, covered)
  {
    forall i | 0 <= i < |incidents| && Stands(incidents[i], covered)
      ensures incidents[i].key in after && after[incidents[i].key].notified
    {
      assert StandsUpTo(incidents, covered, incidents[i].key, |incidents|);
    }
  }

  lemma {:induction false} NotMarkedYet(before: States, now: States, incidents: seq<Incident>, covered: set<Key>,
          i: nat)
    requires i < |incidents| && IncidentsMatch(now, incidents) && Stands(incidents[i], covered)
    requires MarkedUpTo(before, now, incidents, covered, i)
    ensures var k := incidents[i].key;
            && k in now && now[k] == before[k]
            && MarkedUpTo(before, now[k := now[k].(notified := true)], incidents, covered, i + 1)
  {
    var key := incidents[i].key;
    assert IsFired(now, key);
    assert !StandsUpTo(incidents, covered, key, i);
    var after := now[key := now[key].(notified := true)];
    forall k | k in before
      ensures StandsUpTo(incidents, covered, k, i + 1) <==> StandsUpTo(incidents, covered, k, i) || k == key
    {
      if StandsUpTo(incidents, covered, k, i) {
        var j :| 0 <= j < i && incidents[j].key == k && Stands(incidents[j], covered);
        assert j < i + 1;
      }
    }
  }

  lemma {:induction false} LeftOneMore(before: States, queued: seq<Message>, now: States, outbox: seq<Message>,
          incidents: seq<Incident>, covered: set<Key>, window: int, end: int, i: nat, marked: States,
          sent: seq<Message>)
    requires i < |incidents| && IncidentsMatch(now, incidents) && Stands(incidents[i], covered)
    requires LeftSoFar(before, queued, now, outbox, incidents, covered, window, end, i)
    requires incidents[i].key in now && marked == now[incidents[i].key := now[incidents[i].key].(notified := true)]
    requires sent == if now[incidents[i].key].notified then outbox
                     else outbox + [Leftover(window, end, incidents[i].key)]
    requires LeftoversFrom(sent, window, end, incidents, i + 1)
    ensures LeftSoFar(before, queued, marked, sent, incidents, covered, window, end, i + 1)
  {
    NotMarkedYet(before, now, incidents, covered, i);
  }

  /** A recovery comes after a problem message of its own episode. */
  lemma {:induction false} RecoveryAnswersItsProblem(outbox: seq<Message>, told: map<Episode, nat>, i: nat)
    requires OutboxMatches(outbox, told) && i < |outbox| && outbox[i].Recovery?
    ensures exists p :: 0 <= p < i && Tells(outbox[p], (outbox[i].key, outbox[i].since))
  {
    var e := (outbox[i].key, outbox[i].since);
    assert MessageMatches(outbox[i], i, told) && Tells(outbox[told[e]], e);
  }

  /** Each is queued only once, and no two answer the same problem message. */
  lemma {:induction false} RecoveriesAnswerDifferentProblems(outbox: seq<Message>, told: map<Episode, nat>, i: nat,
          k: nat)
    requires OutboxMatches(outbox, told) && i < |outbox| && outbox[i].Recovery?
    requires k < |outbox| && outbox[k].Recovery? && i != k
    ensures outbox[i] != outbox[k]
    ensures exists p, q :: 0 <= p < i && 0 <= q < k && p != q
              && Tells(outbox[p], (outbox[i].key, outbox[i].since))
              && Tells(outbox[q], (outbox[k].key, outbox[k].since))
  {
    var e, f := (outbox[i].key, outbox[i].since), (outbox[k].key, outbox[k].since);
    assert MessageMatches(outbox[i], i, told) && MessageMatches(outbox[k], k, told);
    assert e != f;
    assert Tells(outbox[told[e]], e) && Tells(outbox[told[f]], f);
  }

  class RuleBook {
    var states: States
    var incidents: seq<Incident>
    var outbox: seq<Message>
    var finishedUntil: map<int, int>
    /** Where in the outbox each episode's problem message is. */
    ghost var told: map<Episode, nat>

    ghost predicate Valid()
      reads this
    {
      && IncidentsMatch(states, incidents) && OutboxMatches(outbox, told)
      && NotifiedMatch(states, told) && LeftoversMatch(outbox, finishedUntil)
    }

    constructor ()
      ensures Valid() && states == map[] && incidents == [] && outbox == []
    {
      states, incidents, outbox, finishedUntil, told := map[], [], [], map[], map[];
    }

    /** Queue one message in the caller's transaction, unless it is queued. */
    method Enqueue(m: Message) returns (queued: bool)
      modifies this`outbox
      ensures queued == (m !in old(outbox))
      ensures outbox == WithMessage(old(outbox), m)
    {
      queued := m !in outbox;
      if queued {
        outbox := outbox + [m];
      }
    }

    /** Close what is open for the keys taken in. */
    method CloseIncidents(reach: Reach, now: int, resolution: string)
      modifies this`incidents
      ensures ClosedFrom(old(incidents), incidents, reach, now, resolution)
    {
      for i := 0 to |incidents|
        invariant |incidents| == |old(incidents)|
        invariant forall j :: 0 <= j < i ==> incidents[j] == Close(old(incidents)[j], reach, now, resolution)
        invariant forall j :: i <= j < |incidents| ==> incidents[j] == old(incidents)[j]
      {
        incidents := incidents[i := Close(incidents[i], reach, now, resolution)];
      }
    }

    /** See to it that an incident is open for a key. */
    method OpenIncident(key: Key, since: int)
      requires IncidentsMatch(states, incidents) && IsFired(states, key)
      modifies this`incidents
      ensures IncidentsMatch(states, incidents)
      ensures incidents == Opened(old(incidents), key, since)
    {
      for i := 0 to |incidents|
        invariant forall j :: 0 <= j < i ==> !(incidents[j].closed.None? && incidents[j].key == key)
      {
        if incidents[i].closed.None? && incidents[i].key == key {
          return;
        }
      }
      IncidentOpened(states, incidents, key, since);
      incidents := incidents + [Incident(key, since, None)];
    }

    /** A poll's effect on a rule and on its incident: while a recorded
        rule is fired an incident is open for it, and none once it clears. */
    method StepRule(key: Key, p: Poll, record: bool) returns (out: Outcome)
      requires Valid()
      modifies this`states, this`incidents
      ensures Valid()
      ensures (RowOf(states, key), out) == Step(RowOf(old(states), key), p)
      ensures states == WithRow(old(states), key, Step(RowOf(old(states), key), p).0)
      ensures IncidentsStepped(old(incidents), incidents, key, p.now, out, record && IsFired(states, key))
      ensures record && IsFired(states, key) ==> IsOpen(incidents, key)
    {
      var (row, o) := Step(RowOf(states, key), p);
      out := o;
      states := WithRow(states, key, row);
      if out.cleared {
        CloseIncidents(Exactly(key), p.now, "recovered");
        RowsDropped(old(states), old(incidents), incidents, Exactly(key), p.now, "recovered", states);
      } else {
        RowChanged(old(states), incidents, key, row);
        if record && out.since.Some? && key in states && states[key].fired {
          OpenIncident(key, out.since.value);
          NowOpen(old(incidents), key, out.since.value);
        }
      }
    }

    /** A problem message for the episode a fired rule is in, and the mark that
        it was sent. */
    method Tell(key: Key, m: Message)
      requires Valid() && IsFired(states, key) && Tells(m, (key, states[key].since))
      requires m.Leftover? ==> m !in outbox && m.window in finishedUntil && m.end <= finishedUntil[m.window]
      modifies this`states, this`outbox, this`told
      ensures Valid()
      ensures states == old(states)[key := old(states)[key].(notified := true)]
      ensures outbox == WithMessage(old(outbox), m)
    {
      ghost var e := (key, states[key].since);
      var queued := Enqueue(m);
      if queued {
        ProblemAdded(old(outbox), told, m, e);
        LeftoverAdded(old(outbox), finishedUntil, m);
        told := ToldBy(told, e, |old(outbox)|);
      }
      states := states[key := states[key].(notified := true)];
      RowChanged(old(states), incidents, key, Some(states[key]));
      RowNotified(old(states), old(told), told, key);
    }

    /** One poll of one rule: step it, then send what it decided unless the
        device is quiet, the rule off or recoveries not wanted. */
    method PollRule(key: Key, p: Poll, on: bool, sending: bool, recoveries: bool) returns (out: Outcome)
      requires Valid()
      modifies this`states, this`incidents, this`outbox, this`told
      ensures Valid() && out == Step(RowOf(old(states), key), p).1
      ensures var row, told := Step(RowOf(old(states), key), p).0, out.fired && on && sending;
              && (told ==> row.Some? && out.since.Some?)
              && states == WithRow(old(states), key, if told then Marked(row) else row)
      ensures IncidentsStepped(old(incidents), incidents, key, p.now, out, on && IsFired(states, key))
      ensures on && IsFired(states, key) ==> IsOpen(incidents, key)
      ensures outbox == if out.fired && on && sending then WithMessage(old(outbox), Fire(key, out.since.GetOr(0)))
                        else if out.cleared && out.notified && recoveries && sending
                        then WithMessage(old(outbox), Recovery(key, out.since.GetOr(0))) else old(outbox)
    {
      StepFacts(RowOf(states, key), p);
      out := StepRule(key, p, on);
      RowStepped(old(states), told, key, p);
      RowTwice(old(states), key, Step(RowOf(old(states), key), p).0);
      if sending {
        Send(key, out, out.fired && on, out.cleared && out.notified && recoveries);
      }
    }

    /** The message a step's outcome calls for, if any. */
    method Send(key: Key, out: Outcome, problem: bool, recovery: bool)
      requires Valid() && (problem || recovery ==> out.since.Some?)
      requires problem ==> IsFired(states, key) && out.since == Some(states[key].since)
      requires recovery ==> (key, out.since.value) in told
      modifies this`states, this`outbox, this`told
      ensures Valid()
      ensures states == if problem then WithRow(old(states), key, Marked(RowOf(old(states), key))) else old(states)
      ensures IsFired(states, key) == IsFired(old(states), key)
      ensures outbox == if problem then WithMessage(old(outbox), Fire(key, out.since.value))
                        else if recovery then WithMessage(old(outbox), Recovery(key, out.since.value)) else old(outbox)
    {
      if problem {
        Tell(key, Fire(key, out.since.value));
      } else if recovery {
        var queued := Enqueue(Recovery(key, out.since.value));
        if queued {
          RecoveryAdded(old(outbox), told, (key, out.since.value));
          LeftoverAdded(old(outbox), finishedUntil, Recovery(key, out.since.value));
        }
      }
    }

    /** The rules of these keys go, with what is open for them, and nothing else. */
    method Forget(keys: seq<Key>, now: int, resolution: string)
      requires Valid()
      modifies this`states, this`incidents
      ensures Valid()
      ensures states == old(states) - Elements(keys)
      ensures ClosedFor(old(incidents), incidents, Elements(keys), now, resolution)
    {
      for i := 0 to |keys|
        invariant Valid()
        invariant states == old(states) - Elements(keys[..i])
        invariant ClosedFor(old(incidents), incidents, Elements(keys[..i]), now, resolution)
      {
        assert Elements(keys[..i + 1]) == Elements(keys[..i]) + {keys[i]} by {
          assert keys[..i + 1] == keys[..i] + [keys[i]];
        }
        ghost var before := incidents;
        Drop(Exactly(keys[i]), now, resolution);
        OneMoreClosed(old(incidents), before, incidents, Elements(keys[..i]), keys[i], now, resolution);
      }
      assert keys[..|keys|] == keys;
    }

    /** A suppression was set or removed: the rule starts afresh. */
    method Drop(reach: Reach, now: int, resolution: string)
      requires Valid()
      modifies this`states, this`incidents
      ensures Valid()
      ensures states == map k | k in old(states) && !Covers(reach, k) :: old(states)[k]
      ensures ClosedFrom(old(incidents), incidents, reach, now, resolution)
    {
      states := map k | k in states && !Covers(reach, k) :: states[k];
      CloseIncidents(reach, now, resolution);
      RowsDropped(old(states), old(incidents), incidents, reach, now, resolution, states);
    }

    /** A maintenance window's end, dealt with once: what fired silently under
        it and still stands is sent, and marked so its recovery follows. */
    method Finish(window: int, end: int, covered: set<Key>, enabled: bool) returns (handled: bool)
      requires Valid()
      modifies this`states, this`outbox, this`finishedUntil, this`told
      ensures Valid()
      ensures handled == !(window in old(finishedUntil) && old(finishedUntil)[window] >= end)
      ensures finishedUntil == if handled then old(finishedUntil)[window := end] else old(finishedUntil)
      ensures outbox == if handled && enabled
                        then old(outbox) + LeftBehind(old(states), incidents, covered, window, end, |incidents|)
                        else old(outbox)
      ensures if handled && enabled then MarkedUpTo(old(states), states, incidents, covered, |incidents|)
              else states == old(states)
      ensures handled && enabled ==> AllTold(states, incidents, covered)
    {
      handled := !(window in finishedUntil && finishedUntil[window] >= end);
      if !handled {
        return;
      }
      finishedUntil := finishedUntil[window := end];
      FreshEnd(outbox, old(finishedUntil), window, end);
      if !enabled {
        return;
      }
      LeaveAll(window, end, covered);
      MarkedAreTold(old(states), states, incidents, covered);
    }

    method LeaveAll(window: int, end: int, covered: set<Key>)
      requires Valid() && window in finishedUntil && end <= finishedUntil[window]
      requires forall k :: Leftover(window, end, k) !in outbox
      modifies this`states, this`outbox, this`told
      ensures Valid()
      ensures outbox == old(outbox) + LeftBehind(old(states), incidents, covered, window, end, |incidents|)
      ensures MarkedUpTo(old(states), states, incidents, covered, |incidents|)
    {
      for i := 0 to |incidents|
        invariant Valid()
        invariant LeftSoFar(old(states), old(outbox), states, outbox, incidents, covered, window, end, i)
      {
        LeaveNext(window, end, covered, i, old(states), old(outbox));
      }
    }

    method LeaveNext(window: int, end: int, covered: set<Key>, i: nat, ghost before: States, ghost queued: seq<Message>)
      requires Valid() && window in finishedUntil && end <= finishedUntil[window] && i < |incidents|
      requires LeftSoFar(before, queued, states, outbox, incidents, covered, window, end, i)
      modifies this`states, this`outbox, this`told
      ensures Valid()
      ensures LeftSoFar(before, queued, states, outbox, incidents, covered, window, end, i + 1)
    {
      if Stands(incidents[i], covered) {
        ghost var now, so := states, outbox;
        LeaveBehind(window, end, i);
        LeftOneMore(before, queued, now, so, incidents, covered, window, end, i, states, outbox);
      } else {
        NothingToLeave(before, states, outbox, incidents, covered, window, end, i);
      }
    }

    /** What the window held back of one open incident, if it was not told. */
    method LeaveBehind(window: int, end: int, i: nat)
      requires Valid() && i < |incidents| && incidents[i].closed.None?
      requires window in finishedUntil && end <= finishedUntil[window]
               && LeftoversFrom(outbox, window, end, incidents, i)
      modifies this`states, this`outbox, this`told
      ensures Valid() && LeftoversFrom(outbox, window, end, incidents, i + 1)
      ensures incidents[i].key in old(states)
      ensures outbox == if old(states)[incidents[i].key].notified then old(outbox)
                        else old(outbox) + [Leftover(window, end, incidents[i].key)]
      ensures states == old(states)[incidents[i].key := old(states)[incidents[i].key].(notified := true)]
    {
      var row := incidents[i];
      assert IsFired(states, row.key);
      if !states[row.key].notified {
        NotLeftYet(states, outbox, window, end, incidents, i);
        Tell(row.key, Leftover(window, end, row.key));
      }
    }
  }
}
