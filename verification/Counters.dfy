/** Interface counters: how far they moved between two polls, and what the rates
    kept over a whole run add up to (snmp_poll.py, models.py). */
module Counters {
  import opened Prelude

  const WRAP_32 := 0x1_0000_0000
  const WRAP_64 := 0x1_0000_0000_0000_0000
  const HALF_64 := 0x8000_0000_0000_0000
  const SPEED_TOLERANCE := 1.1

  datatype Direction = In | Out

  /** What a poll read for one interface. */
  datatype Stat = Stat(is64: bool, inOctets: Option<nat>, outOctets: Option<nat>,
                       inErrors: Option<nat>, outErrors: Option<nat>, speedMbps: Option<nat>, isUp: bool) {
    function Bits(): int {
      if is64 then 64 else 32
    }

    function Octets(dir: Direction): Option<nat> {
      match dir
      case In => inOctets
      case Out => outOctets
    }
  }

  /** What an earlier poll left: counters of one width, and when. */
  datatype Reading = Reading(bits: int, inOctets: Option<nat>, outOctets: Option<nat>,
                             inErrors: Option<nat>, outErrors: Option<nat>, at: int) {
    function Octets(dir: Direction): Option<nat> {
      match dir
      case In => inOctets
      case Out => outOctets
    }
  }

  datatype Rates = Rates(inBps: Option<real>, outBps: Option<real>, inErrors: Option<int>, outErrors: Option<int>,
      seconds: int) {
    function Bps(dir: Direction): Option<real> {
      match dir
      case In => inBps
      case Out => outBps
    }
  }

  /** Two readings further apart than this give no rate. */
  function MaxGap(interval: int): int {
    Max(3 * interval, 180)
  }

  /** The difference of two readings; a narrow counter may have gone round once. */
  function CounterDelta(previous: Option<nat>, current: Option<nat>, bits: int): Option<nat> {
    if previous.None? || current.None? then None
    else if current.value >= previous.value then Some(current.value - previous.value)
    else if bits == 32 && previous.value < WRAP_32 then Some(current.value + WRAP_32 - previous.value)
    else None
  }

  function Rate(delta: Option<nat>, seconds: int): Option<real>
    requires seconds > 0
  {
    match delta
    case None => None
    case Some(d) => Some(d as real * 8.0 / seconds as real)
  }

  predicate TooFast(bps: Option<real>, speedMbps: nat) {
    bps.GetOr(0.0) > speedMbps as real * 1000000.0 * SPEED_TOLERANCE
  }

  /** The rates two polls imply, where the readings may be compared at all. */
  function InterfaceRates(previous: Option<Reading>, current: Stat, now: int, interval: int,
          rebooted: bool): Option<Rates> {
    if previous.None? || rebooted then None
    else
      var before, bits := previous.value, current.Bits();
      var seconds := now - before.at;
      if bits != before.bits || seconds <= 0 || seconds > MaxGap(interval) then None
      else
        var deltaIn := CounterDelta(before.inOctets, current.inOctets, bits);
        var deltaOut := CounterDelta(before.outOctets, current.outOctets, bits);
        if deltaIn.None? && deltaOut.None? then None
        else
          var inBps, outBps := Rate(deltaIn, seconds), Rate(deltaOut, seconds);
          if bits == 32 && current.speedMbps.GetOr(0) != 0
             && (TooFast(inBps, current.speedMbps.value) || TooFast(outBps, current.speedMbps.value)) then None
          else Some(Rates(inBps, outBps, CounterDelta(before.inErrors, current.inErrors, 32),
                          CounterDelta(before.outErrors, current.outErrors, 32), seconds))
  }

  // -------------------------------------------------------------------- noticing a restart

  function DetectReboot(previousUptime: Option<real>, currentUptime: Option<real>, between: Option<real>): bool {
    if previousUptime.None? || currentUptime.None? then false
    else
      var gap := between.GetOr(0.0);
      currentUptime.value < previousUptime.value + gap - MaxReal(30.0, 0.1 * gap)
  }

  /** A restart some time into the gap is missed only if the device had been up no
      longer, by then, than the slack allows for; and going on running, with the
      clocks no further apart than the slack, is never taken for one. */
  lemma RestartIsSeen(previous: real, gap: real, into: real, drift: real)
    requires 0.0 <= into <= gap
    ensures DetectReboot(Some(previous), Some(gap - into), Some(gap)) <==> previous + into > MaxReal(30.0, 0.1 * gap)
    ensures DetectReboot(Some(previous), Some(previous + gap + drift), Some(gap)) <==> -drift > MaxReal(30.0, 0.1 * gap)
  {
  }

  // ------------------------------------------------------------- 64-bit counters in a table

  /** Stored in two's complement, in a signed 64-bit column. */
  function Bind(value: Option<nat>): Option<int> {
    match value
    case None => None
    case Some(v) => Some(if v >= HALF_64 then v - WRAP_64 else v)
  }

  function Result(stored: Option<int>): Option<int> {
    match stored
    case None => None
    case Some(v) => Some(if v < 0 then v + WRAP_64 else v)
  }

  /** Any unsigned 64-bit counter fits the column and comes back as it was. */
  lemma StoredExactly(value: Option<nat>)
    requires value.Some? ==> value.value < WRAP_64
    ensures Result(Bind(value)) == value
    ensures value.Some? ==> -HALF_64 <= Bind(value).value < HALF_64
  {
  }

  // ------------------------------------------------------------------------------- a run

  /** What a poll that got an answer brings for an interface. */
  datatype Poll = Poll(now: int, interval: int, rebooted: bool, stat: Stat)

  function ReadingOf(p: Poll): Reading {
    Reading(p.stat.Bits(), p.stat.inOctets, p.stat.outOctets, p.stat.inErrors, p.stat.outErrors, p.now)
  }

  /** The rates of the last poll of a run: against the poll before it. */
  function LastRates(ps: seq<Poll>): Option<Rates>
    requires ps != []
  {
    var n := |ps| - 1;
    InterfaceRates(if n == 0 then None else Some(ReadingOf(ps[n - 1])), ps[n].stat, ps[n].now, ps[n].interval,
                   ps[n].rebooted)
  }

  /** The octets that a poll's rate stands for, where it has one. */
  function Implied(rates: Option<Rates>, dir: Direction): real {
    if rates.None? || rates.value.Bps(dir).None? then 0.0
    else rates.value.Bps(dir).value * rates.value.seconds as real / 8.0
  }

  predicate HasRate(ps: seq<Poll>, dir: Direction)
    requires ps != []
  {
    LastRates(ps).Some? && LastRates(ps).value.Bps(dir).Some?
  }

  function ImpliedSum(ps: seq<Poll>, dir: Direction): real {
    if ps == [] then 0.0 else ImpliedSum(ps[..|ps| - 1], dir) + Implied(LastRates(ps), dir)
  }

  /** What really went through, over the intervals that got a rate. */
  function MovedSum(ps: seq<Poll>, truth: seq<nat>, dir: Direction): int
    requires |truth| == |ps|
  {
    if ps == [] then 0
    else
      var n := |ps| - 1;
      MovedSum(ps[..n], truth[..n], dir) + if n > 0 && HasRate(ps, dir) then Difference(truth[n - 1], truth[n]) else 0
  }

  function Difference(before: int, after: int): int {
    after - before
  }

  /** The value a counter of this width shows once this many octets have passed. */
  function Shown(octets: nat, bits: int): nat {
    if bits == 64 then octets % WRAP_64 else octets % WRAP_32
  }

  /** `truth` is the interface's own count, which never goes back; each poll that
      read the counter read that, as far as its width goes. */
  ghost predicate Counts(ps: seq<Poll>, truth: seq<nat>, dir: Direction) {
    && |truth| == |ps|
    && (forall i, j :: 0 <= i < j < |truth| ==> truth[i] <= truth[j])
    && (forall i :: 0 <= i < |ps| ==> Reads(ps[i].stat, truth[i], dir))
  }

  ghost predicate Reads(stat: Stat, octets: nat, dir: Direction) {
    stat.Octets(dir).Some? ==> stat.Octets(dir).value == Shown(octets, stat.Bits())
  }

  lemma Wrapped32(a: nat, b: nat)
    requires a <= b
    ensures var d := if b % WRAP_32 >= a % WRAP_32 then b % WRAP_32 - a % WRAP_32
                     else b % WRAP_32 + WRAP_32 - a % WRAP_32;
            0 <= d <= b - a && (b - a < WRAP_32 ==> d == b - a)
  {
  }

  lemma Wrapped64(a: nat, b: nat)
    requires a <= b && b % WRAP_64 >= a % WRAP_64
    ensures var d := b % WRAP_64 - a % WRAP_64;
            0 <= d <= b - a && (b - a < WRAP_64 ==> d == b - a)
  {
  }

  /** A difference that is given is never more than went through, and is what went
      through if that is less than a 32-bit counter holds. */
  lemma {:induction false} DeltaIsMovement(before: nat, after: nat, bits: int)
    requires before <= after && (bits == 32 || bits == 64)
    ensures match CounterDelta(Some(Shown(before, bits)), Some(Shown(after, bits)), bits)
            case None => bits == 64
            case Some(d) => d <= after - before && (after - before < WRAP_32 ==> d == after - before)
  {
    if bits == 32 {
      Wrapped32(before, after);
    } else if Shown(after, 64) >= Shown(before, 64) {
      Wrapped64(before, after);
    }
  }

  lemma RateBack(d: real, seconds: real)
    requires seconds > 0.0
    ensures d * 8.0 / seconds * seconds / 8.0 == d
  {
    assert d * 8.0 / seconds * seconds == d * 8.0;
  }

  /** A rate that is kept is of two readings of one width, and stands for the
      difference between them. */
  lemma {:induction false} RateIsOfDelta(previous: Option<Reading>, current: Stat, now: int, interval: int,
          rebooted: bool, dir: Direction)
    requires var rates := InterfaceRates(previous, current, now, interval, rebooted);
             rates.Some? && rates.value.Bps(dir).Some?
    ensures previous.Some? && previous.value.bits == current.Bits()
    ensures var delta := CounterDelta(previous.value.Octets(dir), current.Octets(dir), current.Bits());
            delta.Some?
            && Implied(InterfaceRates(previous, current, now, interval, rebooted), dir) == delta.value as real
  {
    var seconds := now - previous.value.at;
    var delta := CounterDelta(previous.value.Octets(dir), current.Octets(dir), current.Bits());
    RateBack(delta.value as real, seconds as real);
  }

  lemma {:induction false} LastIsMovement(ps: seq<Poll>, truth: seq<nat>, dir: Direction)
    requires |ps| > 1 && Counts(ps, truth, dir) && HasRate(ps, dir)
    ensures var n := |ps| - 1; var moved := Difference(truth[n - 1], truth[n]);
            && Implied(LastRates(ps), dir) <= moved as real
            && (moved < WRAP_32 ==> Implied(LastRates(ps), dir) == moved as real)
  {
    var n := |ps| - 1;
    assert Reads(ps[n].stat, truth[n], dir) && Reads(ps[n - 1].stat, truth[n - 1], dir);
    DeltaIsMovement(truth[n - 1], truth[n], ps[n].stat.Bits());
    RateIsOfDelta(Some(ReadingOf(ps[n - 1])), ps[n].stat, ps[n].now, ps[n].interval, ps[n].rebooted, dir);
  }

  lemma FewerCount(ps: seq<Poll>, truth: seq<nat>, dir: Direction)
    requires ps != [] && Counts(ps, truth, dir)
    ensures Counts(ps[..|ps| - 1], truth[..|ps| - 1], dir)
  {
  }

  /** Over any run the octets the rates stand for are at most what went through in
      the intervals that got one, and so at most what went through in all. */
  lemma {:induction false} NeverMoreThanMoved(ps: seq<Poll>, truth: seq<nat>, dir: Direction)
    requires ps != [] && Counts(ps, truth, dir)
    ensures ImpliedSum(ps, dir) <= MovedSum(ps, truth, dir) as real
    ensures MovedSum(ps, truth, dir) <= truth[|truth| - 1] - truth[0]
    decreases |ps|
  {
    var n := |ps| - 1;
    if n > 0 {
      FewerCount(ps, truth, dir);
      NeverMoreThanMoved(ps[..n], truth[..n], dir);
      if HasRate(ps, dir) {
        LastIsMovement(ps, truth, dir);
      }
    } else {
      assert ps[..0] == [];
    }
  }

  /** No interval that got a rate saw more than a 32-bit counter holds. */
  ghost predicate Unhurried(ps: seq<Poll>, truth: seq<nat>, dir: Direction)
    requires |truth| == |ps|
  {
    forall i :: 0 < i < |ps| && HasRate(ps[..i + 1], dir) ==> Difference(truth[i - 1], truth[i]) < WRAP_32
  }

  lemma FewerUnhurried(ps: seq<Poll>, truth: seq<nat>, dir: Direction)
    requires ps != [] && |truth| == |ps| && Unhurried(ps, truth, dir)
    ensures Unhurried(ps[..|ps| - 1], truth[..|ps| - 1], dir)
    ensures |ps| > 1 && HasRate(ps, dir) ==> Difference(truth[|ps| - 2], truth[|ps| - 1]) < WRAP_32
  {
    var n := |ps| - 1;
    assert ps[..n + 1] == ps;
    forall i | 0 < i < n && HasRate(ps[..n][..i + 1], dir)
      ensures Difference(truth[..n][i - 1], truth[..n][i]) < WRAP_32
    {
      assert ps[..n][..i + 1] == ps[..i + 1];
    }
  }

  /** ... and exactly that if none of those saw more than a 32-bit counter holds. */
  lemma {:induction false} ExactWhenUnhurried(ps: seq<Poll>, truth: seq<nat>, dir: Direction)
    requires Counts(ps, truth, dir) && Unhurried(ps, truth, dir)
    ensures ImpliedSum(ps, dir) == MovedSum(ps, truth, dir) as real
    decreases |ps|
  {
    if ps != [] {
      var n := |ps| - 1;
      FewerCount(ps, truth, dir);
      FewerUnhurried(ps, truth, dir);
      ExactWhenUnhurried(ps[..n], truth[..n], dir);
      if n > 0 && HasRate(ps, dir) {
        LastIsMovement(ps, truth, dir);
      }
    }
  }

  // ------------------------------------------------------------------------ the row itself

  ghost predicate Fits(p: Poll) {
    && (p.stat.inOctets.Some? ==> p.stat.inOctets.value < WRAP_64)
    && (p.stat.outOctets.Some? ==> p.stat.outOctets.value < WRAP_64)
    && (p.stat.inErrors.Some? ==> p.stat.inErrors.value < WRAP_64)
    && (p.stat.outErrors.Some? ==> p.stat.outErrors.value < WRAP_64)
  }

  class Interface {
    var counterBits: Option<int>
    var inOctets: Option<int>
    var outOctets: Option<int>
    var inErrors: Option<int>
    var outErrors: Option<int>
    var countersAt: Option<int>
    var inBps: Option<real>
    var outBps: Option<real>
    /** Every answered poll so far. */
    ghost var polls: seq<Poll>

    ghost predicate Valid()
      reads this
    {
      && (polls == [] ==> countersAt.None?)
      && (polls != [] ==> Fits(polls[|polls| - 1]) && Holds(polls[|polls| - 1]))
    }

    /** The row holds a poll's counters, as they are stored. */
    ghost predicate Holds(p: Poll)
      reads this
    {
      && counterBits == Some(p.stat.Bits()) && countersAt == Some(p.now)
      && inOctets == Bind(p.stat.inOctets) && outOctets == Bind(p.stat.outOctets)
      && inErrors == Bind(p.stat.inErrors) && outErrors == Bind(p.stat.outErrors)
    }

    constructor ()
      ensures Valid() && polls == []
    {
      counterBits, countersAt, polls := None, None, [];
      inOctets, outOctets, inErrors, outErrors := None, None, None, None;
      inBps, outBps := None, None;
    }

    /** The last poll's reading, loaded back. */
    method Reload() returns (reading: Option<Reading>)
      requires Valid()
      ensures reading == if polls == [] then None else Some(ReadingOf(polls[|polls| - 1]))
    {
      if countersAt.None? || counterBits.None? {
        return None;
      }
      ghost var last := polls[|polls| - 1].stat;
      StoredExactly(last.inOctets);
      StoredExactly(last.outOctets);
      StoredExactly(last.inErrors);
      StoredExactly(last.outErrors);
      reading := Some(Reading(counterBits.value, Result(inOctets), Result(outOctets), Result(inErrors),
                              Result(outErrors), countersAt.value));
    }

    /** One answered poll: its rates, and a sample if the interface is up. */
    method Record(p: Poll) returns (sample: Option<Rates>)
      requires Valid() && Fits(p)
      modifies this
      ensures Valid() && polls == old(polls) + [p]
      ensures var rates := LastRates(polls);
              && sample == (if p.stat.isUp then rates else None)
              && inBps == (if rates.Some? then rates.value.inBps else None)
              && outBps == (if rates.Some? then rates.value.outBps else None)
    {
      var reading := Reload();
      var rates := InterfaceRates(reading, p.stat, p.now, p.interval, p.rebooted);
      RatesOfOneMore(polls, p, reading);
      sample := Store(p, rates);
    }

    /** The new baseline, and a sample of the rates if the interface is up. */
    method Store(p: Poll, rates: Option<Rates>) returns (sample: Option<Rates>)
      requires Fits(p)
      modifies this
      ensures Valid() && polls == old(polls) + [p]
      ensures sample == (if p.stat.isUp then rates else None)
      ensures inBps == (if rates.Some? then rates.value.inBps else None)
      ensures outBps == (if rates.Some? then rates.value.outBps else None)
    {
      counterBits, countersAt := Some(p.stat.Bits()), Some(p.now);
      inOctets, outOctets := Bind(p.stat.inOctets), Bind(p.stat.outOctets);
      inErrors, outErrors := Bind(p.stat.inErrors), Bind(p.stat.outErrors);
      inBps := if rates.Some? then rates.value.inBps else None;
      outBps := if rates.Some? then rates.value.outBps else None;
      sample := if p.stat.isUp then rates else None;
      polls := polls + [p];
    }
  }

  lemma RatesOfOneMore(ps: seq<Poll>, p: Poll, reading: Option<Reading>)
    requires reading == if ps == [] then None else Some(ReadingOf(ps[|ps| - 1]))
    ensures LastRates(ps + [p]) == InterfaceRates(reading, p.stat, p.now, p.interval, p.rebooted)
  {
  }
}
