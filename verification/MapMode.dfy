/** Applying what was worked out: suggestions accepted by a person, the
    automatic pass, taking a place back, and starting over (topology.py).

    The tables are one value, `Tables`; `MapBook` is the object whose methods
    change them, each proved to make exactly the step its specification says. */
module MapMode {
  import opened Prelude
  import opened Forest
  import opened Topology

  datatype Role = Unknown | Gateway | Switch | Other(name: string)

  /** One place worked out for one device, and a role to fill in. */
  datatype Found = Found(device: Id, parent: Option<Id>, role: Option<Role>)

  /** What "Not right" remembers: the device and the parent (0 for none). */
  type Pair = (Id, Id)

  const MAX_DISMISSED := 1000

  /** The device rows, the MapAuto rows, the dismissed pairs and the mode. */
  datatype Tables = Tables(
    parents: Parents,
    roles: map<Id, Role>,
    auto: map<Id, Option<Id>>,
    dismissed: seq<Pair>,
    automatic: bool)

  function KeyOf(f: Found): Pair {
    (f.device, f.parent.GetOr(0))
  }

  function RoleOf(t: Tables, d: Id): Role {
    if d in t.roles then t.roles[d] else Unknown
  }

  /** Automatic may place this device: it never had a place, or it is still
      where automatic's own row says it was put. */
  predicate Free(t: Tables, d: Id) {
    if d in t.auto then Up(t.parents, d) == t.auto[d] else Up(t.parents, d) == None
  }

  // ------------------------------------------------------------- one step of each kind

  function FillRole(t: Tables, f: Found): Tables {
    if f.role.Some? && RoleOf(t, f.device) == Unknown
    then t.(roles := t.roles[f.device := f.role.value])
    else t
  }

  /** The automatic pass moves this device now. */
  ghost predicate Moves(t: Tables, f: Found) {
    && KeyOf(f) !in t.dismissed
    && f.parent.Some? && f.parent != Up(t.parents, f.device)
    && Free(t, f.device)
    && MayParent(t.parents, f.device, f.parent.value)
  }

  ghost function PlaceOne(t: Tables, f: Found): Tables {
    if KeyOf(f) in t.dismissed then t
    else
      FillRole(if Moves(t, f)
               then t.(parents := t.parents[f.device := f.parent], auto := t.auto[f.device := f.parent])
               else t, f)
  }

  ghost function Pass(t: Tables, order: seq<Found>): Tables {
    if order == [] then t
    else PlaceOne(Pass(t, order[..|order| - 1]), order[|order| - 1])
  }

  ghost function AfterAutomatic(t: Tables, order: seq<Found>): Tables {
    if t.automatic then Pass(t, order) else t
  }

  ghost function AfterAccept(t: Tables, f: Found): Tables {
    if f.parent.Some? && Up(t.parents, f.device) == None then
      if MayParent(t.parents, f.device, f.parent.value)
      then FillRole(t.(parents := t.parents[f.device := f.parent]), f)
      else t
    else FillRole(t, f)
  }

  function AfterDismiss(t: Tables, f: Found): Tables {
    var pairs := if KeyOf(f) in t.dismissed then t.dismissed else t.dismissed + [KeyOf(f)];
    t.(dismissed := if |pairs| > MAX_DISMISSED then pairs[|pairs| - MAX_DISMISSED..] else pairs)
  }

  /** The device is where automatic put it, and that is the place rejected. */
  predicate IsAutomatics(t: Tables, f: Found) {
    && f.device in t.auto && Up(t.parents, f.device).Some?
    && Up(t.parents, f.device) == t.auto[f.device] && f.parent == Up(t.parents, f.device)
  }

  function AfterTakeBack(t: Tables, f: Found): Tables {
    if IsAutomatics(t, f) then
      AfterDismiss(t, f).(parents := t.parents[f.device := None], auto := t.auto - {f.device})
    else t
  }

  /** A person's choice on the device's page: refused if it would loop. */
  ghost function AfterHand(t: Tables, d: Id, parent: Option<Id>, role: Role): Tables {
    if parent.None? || MayParent(t.parents, d, parent.value)
    then t.(parents := t.parents[d := parent], roles := t.roles[d := role])
    else t
  }

  /** The parent as the page's form has it: left empty, no id at all, or one. */
  datatype Choice = NoParent | NotAnId | Picked(id: Id)

  function Chosen(c: Choice): Option<Id> {
    if c.Picked? then Some(c.id) else None
  }

  /** The page takes a form for a device that is there, with a role on offer, and
      no parent or one that is there and not ignored. */
  predicate Taken(t: Tables, d: Id, role: Option<Role>, parent: Choice, ignored: set<Id>) {
    && d in t.parents && role.Some? && !parent.NotAnId?
    && (parent.Picked? ==> parent.id in t.parents && parent.id !in ignored)
  }

  function Wiped(t: Tables): Tables {
    t.(parents := map d | d in t.parents :: None, roles := map[], auto := map[], dismissed := [])
  }

  /** Everything that changes the map. */
  datatype Op =
    | Automatic(order: seq<Found>)
    | Mode(automatic: bool, order: seq<Found>)
    | Accept(f: Found)
    | Dismiss(f: Found)
    | TakeBack(f: Found)
    | Hand(device: Id, parent: Option<Id>, role: Role)
    | Wipe(order: seq<Found>)

  ghost function After(t: Tables, op: Op): Tables {
    match op
    case Automatic(order) => AfterAutomatic(t, order)
    case Mode(on, order) => AfterAutomatic(t.(automatic := on), order)
    case Accept(f) => AfterAccept(t, f)
    case Dismiss(f) => AfterDismiss(t, f)
    case TakeBack(f) => AfterTakeBack(t, f)
    case Hand(d, q, role) => AfterHand(t, d, q, role)
    case Wipe(order) => AfterAutomatic(Wiped(t), order)
  }

  ghost function Run(t: Tables, ops: seq<Op>): Tables {
    if ops == [] then t else After(Run(t, ops[..|ops| - 1]), ops[|ops| - 1])
  }

  // ------------------------------------------------------------------- the program

  class MapBook {
    var parents: Parents
    var roles: map<Id, Role>
    var auto: map<Id, Option<Id>>
    var dismissed: seq<Pair>
    var automatic: bool

    ghost function State(): Tables
      reads this
    {
      Tables(parents, roles, auto, dismissed, automatic)
    }

    method FillIn(f: Found)
      modifies this`roles
      ensures State() == FillRole(old(State()), f)
    {
      var current := if f.device in roles then roles[f.device] else Unknown;
      if f.role.Some? && current == Unknown {
        roles := roles[f.device := f.role.value];
      }
    }

    /** A person takes a suggestion up. */
    method AcceptOne(f: Found) returns (changed: bool)
      modifies this
      ensures State() == AfterAccept(old(State()), f)
      ensures changed ==> State() != old(State())
    {
      changed := false;
      if f.parent.Some? && Up(parents, f.device) == None {
        var ok := CanParent(parents, f.device, f.parent.value);
        if !ok {
          return false;
        }
        parents := parents[f.device := f.parent];
        changed := true;
        assert Up(parents, f.device) != Up(old(parents), f.device);
      }
      var before := roles;
      FillIn(f);
      if f.role.Some? && (f.device !in before || before[f.device] == Unknown) && f.role.value != Unknown {
        changed := true;
        assert RoleOf(State(), f.device) != RoleOf(old(State()), f.device);
      }
    }

    method DismissOne(f: Found)
      modifies this`dismissed
      ensures State() == AfterDismiss(old(State()), f)
    {
      var pairs := dismissed;
      if KeyOf(f) !in pairs {
        pairs := pairs + [KeyOf(f)];
      }
      dismissed := if |pairs| > MAX_DISMISSED then pairs[|pairs| - MAX_DISMISSED..] else pairs;
    }

    /** Automatic mode's pass over what was found. */
    method ApplyAutomatic(order: seq<Found>) returns (placed: nat, moved: nat)
      modifies this
      ensures State() == AfterAutomatic(old(State()), order)
      ensures placed + moved <= |order|
      ensures placed + moved == 0 ==> parents == old(parents)
    {
      placed, moved := 0, 0;
      if !automatic {
        return;
      }
      for i := 0 to |order|
        invariant State() == Pass(old(State()), order[..i])
        invariant placed + moved <= i
        invariant placed + moved == 0 ==> parents == old(parents)
      {
        var f := order[i];
        assert order[..i + 1][..i] == order[..i];
        if KeyOf(f) in dismissed {
          continue;
        }
        if f.parent.Some? && f.parent != Up(parents, f.device) {
          var isNew := f.device !in auto && Up(parents, f.device) == None;
          var own := f.device in auto && Up(parents, f.device) == auto[f.device];
          if isNew || own {
            var ok := CanParent(parents, f.device, f.parent.value);
            if ok {
              parents := parents[f.device := f.parent];
              auto := auto[f.device := f.parent];
              if isNew {
                placed := placed + 1;
              } else {
                moved := moved + 1;
              }
            }
          }
        }
        FillIn(f);
      }
      assert order[..|order|] == order;
    }

    method SetMode(on: bool, order: seq<Found>)
      modifies this
      ensures State() == After(old(State()), Mode(on, order))
    {
      automatic := on;
      var _, _ := ApplyAutomatic(order);
    }

    /** A person rejects where automatic put a device. */
    method TakeBackOne(f: Found) returns (done: bool)
      modifies this
      ensures State() == AfterTakeBack(old(State()), f)
      ensures done == IsAutomatics(old(State()), f)
    {
      var here := Up(parents, f.device);
      if f.device !in auto || here == None || here != auto[f.device] {
        return false;
      }
      if f.parent.None? || here != f.parent {
        return false;
      }
      DismissOne(f);
      parents := parents[f.device := None];
      auto := auto - {f.device};
      done := true;
    }

    /** The page's form. */
    method PlaceByHand(d: Id, role: Option<Role>, parent: Choice, ignored: set<Id>)
      modifies this
      ensures State() == if Taken(old(State()), d, role, parent, ignored)
                         then After(old(State()), Hand(d, Chosen(parent), role.value)) else old(State())
    {
      if d !in parents || role.None? {
        return;
      }
      if parent.NotAnId? {
        return;
      }
      if parent.Picked? {
        if parent.id !in parents || parent.id in ignored {
          return;
        }
        var ok := CanParent(parents, d, parent.id);
        if !ok {
          return;
        }
      }
      roles := roles[d := role.value];
      parents := parents[d := Chosen(parent)];
    }

    method WipeMap(order: seq<Found>)
      modifies this
      ensures State() == After(old(State()), Wipe(order))
    {
      parents := map d | d in parents :: None;
      roles := map[];
      auto := map[];
      dismissed := [];
      var _, _ := ApplyAutomatic(order);
    }
  }

  // ------------------------------------------------------------- no run makes a loop

  lemma {:induction false} PassKeepsAcyclic(t: Tables, order: seq<Found>)
    requires Acyclic(t.parents)
    ensures Acyclic(Pass(t, order).parents)
    decreases |order|
  {
    if order != [] {
      var n := |order| - 1;
      PassKeepsAcyclic(t, order[..n]);
      var before := Pass(t, order[..n]);
      if Moves(before, order[n]) {
        AllowedMoveKeepsAcyclic(before.parents, order[n].device, order[n].parent.value);
      }
    }
  }

  lemma {:induction false} NoParentsIsAcyclic(p: Parents)
    requires forall d :: d in p ==> p[d] == None
    ensures Acyclic(p)
  {
    forall d | d in p ensures Grounded(p, d) {
      assert Climb(p, d, 1) == None;
    }
    GroundedIsAcyclic(p);
  }

  lemma {:induction false} StepKeepsAcyclic(t: Tables, op: Op)
    requires Acyclic(t.parents)
    ensures Acyclic(After(t, op).parents)
  {
    match op
    case Automatic(order) => PassKeepsAcyclic(t, order);
    case Mode(on, order) => PassKeepsAcyclic(t.(automatic := on), order);
    case Accept(f) =>
      if f.parent.Some? && MayParent(t.parents, f.device, f.parent.value) {
        AllowedMoveKeepsAcyclic(t.parents, f.device, f.parent.value);
      }
    case Dismiss(f) =>
    case TakeBack(f) => DetachKeepsAcyclic(t.parents, f.device);
    case Hand(d, q, role) =>
      if q.None? {
        DetachKeepsAcyclic(t.parents, d);
      } else if MayParent(t.parents, d, q.value) {
        AllowedMoveKeepsAcyclic(t.parents, d, q.value);
      }
    case Wipe(order) =>
      NoParentsIsAcyclic(Wiped(t).parents);
      PassKeepsAcyclic(Wiped(t), order);
  }

  /** From a map without loops, no run of accepts, automatic passes, take-backs,
      hand moves, mode changes and wipes ever makes one. */
  lemma {:induction false} RunsKeepAcyclic(t: Tables, ops: seq<Op>)
    requires Acyclic(t.parents)
    ensures Acyclic(Run(t, ops).parents)
    decreases |ops|
  {
    if ops != [] {
      var n := |ops| - 1;
      RunsKeepAcyclic(t, ops[..n]);
      StepKeepsAcyclic(Run(t, ops[..n]), ops[n]);
    }
  }

  // ------------------------------------------------- what an automatic pass may touch

  /** The device's place and automatic's row for it are as they were. */
  ghost predicate SamePlace(t: Tables, t': Tables, d: Id) {
    && Up(t'.parents, d) == Up(t.parents, d)
    && (d in t'.auto <==> d in t.auto)
    && (d in t.auto ==> t'.auto[d] == t.auto[d])
  }

  /** What the pass did to one device: nothing, or it was free and is now where
      automatic's row says. */
  ghost predicate Respects(t: Tables, t': Tables, d: Id) {
    || SamePlace(t, t', d)
    || (Free(t, d) && d in t'.auto && t'.auto[d] == Up(t'.parents, d))
  }

  /** A pass never changes a parent that is not automatic's own: a device it
      touches had no place and no row, or was exactly where the row says. */
  lemma {:induction false} PassRespectsPeople(t: Tables, order: seq<Found>, d: Id)
    ensures Respects(t, Pass(t, order), d)
    ensures Pass(t, order).dismissed == t.dismissed && Pass(t, order).automatic == t.automatic
    decreases |order|
  {
    if order != [] {
      var n := |order| - 1;
      PassRespectsPeople(t, order[..n], d);
      PlaceOneTouchesOne(Pass(t, order[..n]), order[n], d);
    }
  }

  lemma PlaceOneTouchesOne(t: Tables, f: Found, d: Id)
    ensures Respects(t, PlaceOne(t, f), d)
    ensures d != f.device ==> SamePlace(t, PlaceOne(t, f), d) && RoleOf(PlaceOne(t, f), d) == RoleOf(t, d)
    ensures RoleOf(t, d) != Unknown ==> RoleOf(PlaceOne(t, f), d) == RoleOf(t, d)
    ensures PlaceOne(t, f).dismissed == t.dismissed && PlaceOne(t, f).automatic == t.automatic
  {
  }

  ghost predicate DistinctDevices(order: seq<Found>) {
    forall i, j :: 0 <= i < j < |order| ==> order[i].device != order[j].device
  }

  lemma {:induction false} PassLeavesOthers(t: Tables, order: seq<Found>, d: Id)
    requires forall i :: 0 <= i < |order| ==> order[i].device != d
    ensures SamePlace(t, Pass(t, order), d)
    ensures RoleOf(Pass(t, order), d) == RoleOf(t, d)
    decreases |order|
  {
    if order != [] {
      var n := |order| - 1;
      PassLeavesOthers(t, order[..n], d);
      PlaceOneTouchesOne(Pass(t, order[..n]), order[n], d);
    }
  }

  lemma {:induction false} PassSplit(t: Tables, a: seq<Found>, b: seq<Found>)
    ensures Pass(t, a + b) == Pass(Pass(t, a), b)
    decreases |b|
  {
    if b == [] {
      assert a + b == a;
    } else {
      var n := |b| - 1;
      assert (a + b)[..|a + b| - 1] == a + b[..n];
      PassSplit(t, a, b[..n]);
    }
  }

  /** Whether a pass that has reached `now` moves the device `f` names, judged
      by how things stood at its start. */
  ghost predicate MovesFrom(t: Tables, now: Parents, f: Found) {
    && KeyOf(f) !in t.dismissed && f.parent.Some? && f.parent != Up(t.parents, f.device)
    && Free(t, f.device) && MayParent(now, f.device, f.parent.value)
  }

  ghost predicate MovedExactly(t: Tables, t': Tables, now: Parents, f: Found) {
    && Up(t'.parents, f.device) == (if MovesFrom(t, now, f) then f.parent else Up(t.parents, f.device))
    && (MovesFrom(t, now, f) ==> f.device in t'.auto && t'.auto[f.device] == f.parent)
    && (RoleOf(t, f.device) != Unknown ==> RoleOf(t', f.device) == RoleOf(t, f.device))
  }

  lemma ItsTurnComes(t: Tables, b: Tables, f: Found)
    requires SamePlace(t, b, f.device) && b.dismissed == t.dismissed && RoleOf(b, f.device) == RoleOf(t, f.device)
    ensures MovedExactly(t, PlaceOne(b, f), b.parents, f)
  {
  }

  /** Exactly which devices a pass moves: those it found somewhere else, that
      nobody rejected there, that are free, and whose move closes no loop at
      the moment its turn comes. A role that is set stays. */
  lemma {:induction false} PassMovesExactly(t: Tables, order: seq<Found>, i: nat)
    requires DistinctDevices(order) && i < |order|
    ensures MovedExactly(t, Pass(t, order), Pass(t, order[..i]).parents, order[i])
  {
    var f := order[i];
    var before, after := order[..i], order[i + 1..];
    PassLeavesOthers(t, before, f.device);
    PassRespectsPeople(t, before, f.device);
    assert order == (before + [f]) + after;
    PassSplit(t, before + [f], after);
    assert (before + [f])[..i] == before;
    var b := Pass(t, before);
    assert Pass(t, before + [f]) == PlaceOne(b, f);
    ItsTurnComes(t, b, f);
    PassLeavesOthers(PlaceOne(b, f), after, f.device);
  }

  /** Only a person's own acts on `d`: a hand move, an accept, starting over. */
  predicate PersonOn(op: Op, d: Id) {
    match op
    case Hand(x, _, _) => x == d
    case Accept(f) => f.device == d
    case Wipe(_) => true
    case _ => false
  }

  /** What automatic does not own stays where its person left it, through any run
      in which no person touches it again. */
  lemma {:induction false} HandPlacesStay(t: Tables, ops: seq<Op>, d: Id)
    requires !Free(t, d)
    requires forall i :: 0 <= i < |ops| ==> !PersonOn(ops[i], d)
    ensures Up(Run(t, ops).parents, d) == Up(t.parents, d) && !Free(Run(t, ops), d)
    decreases |ops|
  {
    if ops != [] {
      var n := |ops| - 1;
      HandPlacesStay(t, ops[..n], d);
      var before := Run(t, ops[..n]);
      match ops[n]
      case Automatic(order) => PassRespectsPeople(before, order, d);
      case Mode(on, order) => PassRespectsPeople(before.(automatic := on), order, d);
      case _ =>
    }
  }

  /** A pass, however long, sees a device somewhere else than where it is, in a
      place nobody rejected and that closes no loop when its turn comes. */
  ghost predicate SeesElsewhere(t: Tables, order: seq<Found>, i: nat) {
    && t.automatic && DistinctDevices(order) && i < |order|
    && order[i].parent.Some? && order[i].parent != Up(t.parents, order[i].device)
    && KeyOf(order[i]) !in t.dismissed
    && MayParent(Pass(t, order[..i]).parents, order[i].device, order[i].parent.value)
  }

  /** Automatic's row for the device holds this very place. */
  predicate RowHolds(t: Tables, d: Id, q: Id) {
    d in t.auto && t.auto[d] == Some(q)
  }

  lemma {:induction false} StaysUnlessRowHolds(t: Tables, order: seq<Found>, i: nat, q: Id)
    requires SeesElsewhere(t, order, i) && Up(t.parents, order[i].device) == Some(q)
    ensures Up(After(t, Automatic(order)).parents, order[i].device) == Some(q) <==> !RowHolds(t, order[i].device, q)
  {
    PassMovesExactly(t, order, i);
  }

  /** The notes promise that no pass moves what a person placed, by a suggestion or
      otherwise. The code moves it, at the next pass that sees it elsewhere,
      exactly when the person chose the very place automatic's row still holds. */
  lemma {:induction false} HandPlaceIsSafeExactly(t: Tables, d: Id, q: Id, role: Role, order: seq<Found>, i: nat)
    requires MayParent(t.parents, d, q) && i < |order| && order[i].device == d
    requires SeesElsewhere(AfterHand(t, d, Some(q), role), order, i)
    ensures Up(After(AfterHand(t, d, Some(q), role), Automatic(order)).parents, d) == Some(q) <==> !RowHolds(t, d, q)
  {
    StaysUnlessRowHolds(AfterHand(t, d, Some(q), role), order, i, q);
  }

  /** The same for a suggestion accepted on a device without a place. */
  lemma {:induction false} AcceptedPlaceIsSafeExactly(t: Tables, f: Found, order: seq<Found>, i: nat)
    requires f.parent.Some? && Up(t.parents, f.device) == None && MayParent(t.parents, f.device, f.parent.value)
    requires i < |order| && order[i].device == f.device && SeesElsewhere(AfterAccept(t, f), order, i)
    ensures Up(After(AfterAccept(t, f), Automatic(order)).parents, f.device) == f.parent
            <==> !RowHolds(t, f.device, f.parent.value)
  {
    StaysUnlessRowHolds(AfterAccept(t, f), order, i, f.parent.value);
  }

  /** The case where it goes wrong exists: automatic puts 3 under 1, a person
      clears it and puts it back under 1 by hand, and a later pass moves it. */
  lemma HandPlaceCanBeTouched() returns (t: Tables, ops: seq<Op>)
    ensures Acyclic(t.parents) && t.automatic
    ensures |ops| == 4 && ops[1].Hand? && ops[2] == Hand(3, Some(1), Unknown) && ops[3].Automatic?
    ensures Up(Run(t, ops[..3]).parents, 3) == Some(1)
    ensures Up(Run(t, ops).parents, 3) == Some(2)
  {
    t := Tables(map[1 := None, 2 := None, 3 := None], map[], map[], [], true);
    NoParentsIsAcyclic(t.parents);
    var a, b, c, d := Automatic([Found(3, Some(1), None)]), Hand(3, None, Unknown), Hand(3, Some(1), Unknown),
      Automatic([Found(3, Some(2), None)]);
    ops := [a] + [b] + [c] + [d];
    var t1 := PlacedFirst(t, Found(3, Some(1), None));
    RunOneMore(t, [], a);
    assert [] + [a] == [a];
    RunOneMore(t, [a], b);
    RunOneMore(t, [a] + [b], c);
    RunOneMore(t, [a] + [b] + [c], d);
    assert ops[..3] == [a] + [b] + [c];
    var t2 := After(t1, b);
    NothingBelow(t2.parents, 3);
    var t3 := After(t2, c);
    NothingBelow(t3.parents, 3);
    PassOne(t3, Found(3, Some(2), None));
  }

  lemma PlacedFirst(t: Tables, f: Found) returns (after: Tables)
    requires t == Tables(map[1 := None, 2 := None, 3 := None], map[], map[], [], true) && f == Found(3, Some(1), None)
    ensures after == After(t, Automatic([f]))
    ensures after == Tables(map[1 := None, 2 := None, 3 := Some(1)], map[], map[3 := Some(1)], [], true)
  {
    NothingBelow(t.parents, 3);
    PassOne(t, f);
    after := After(t, Automatic([f]));
  }

  lemma PassOne(t: Tables, f: Found)
    ensures Pass(t, [f]) == PlaceOne(t, f)
  {
    assert [f][..0] == [];
  }

  lemma RunOneMore(t: Tables, ops: seq<Op>, op: Op)
    ensures Run(t, ops + [op]) == After(Run(t, ops), op)
  {
    assert (ops + [op])[..|ops|] == ops;
  }

  /** A device nobody names as parent has nothing below it. */
  lemma {:induction false} NothingBelow(p: Parents, d: Id)
    requires forall c :: c in p ==> p[c] != Some(d)
    ensures forall c :: c != d ==> !Below(p, c, d)
  {
    forall c | c != d ensures !Below(p, c, d) {
      if Below(p, c, d) {
        var n: nat :| n > 0 && Climb(p, c, n) == Some(d);
        ClimbPrefix(p, c, n - 1, n);
        ClimbAdd(p, c, n - 1, 1);
      }
    }
  }

  /** The list of rejected pairs stays within its limit on every run. */
  lemma {:induction false} DismissedStaysBounded(t: Tables, ops: seq<Op>)
    requires |t.dismissed| <= MAX_DISMISSED
    ensures |Run(t, ops).dismissed| <= MAX_DISMISSED
    decreases |ops|
  {
    if ops != [] {
      var n := |ops| - 1;
      DismissedStaysBounded(t, ops[..n]);
      var before := Run(t, ops[..n]);
      match ops[n]
      case Automatic(order) => PassRespectsPeople(before, order, 0);
      case Mode(on, order) => PassRespectsPeople(before.(automatic := on), order, 0);
      case Wipe(order) => PassRespectsPeople(Wiped(before), order, 0);
      case _ =>
    }
  }

  /** Accepting only fills in: a parent or a role that is there stays, and a place
      the guard refuses changes nothing at all. */
  lemma {:induction false} AcceptOnlyFillsIn(t: Tables, f: Found, d: Id)
    ensures var after := AfterAccept(t, f);
            && (Up(t.parents, d).Some? || d != f.device ==> Up(after.parents, d) == Up(t.parents, d))
            && (RoleOf(t, d) != Unknown || d != f.device ==> RoleOf(after, d) == RoleOf(t, d))
            && after.auto == t.auto && after.dismissed == t.dismissed
            && (after.parents != t.parents ==> MayParent(t.parents, f.device, f.parent.value))
  {
  }

  /** A place taken back is not set again by any later pass that still sees the
      device there, however many run. */
  lemma {:induction false} TakenBackStaysOff(t: Tables, f: Found, order: seq<Found>)
    requires IsAutomatics(t, f) && |t.dismissed| <= MAX_DISMISSED
    requires forall i :: 0 <= i < |order| && order[i].device == f.device ==> order[i].parent == f.parent
    ensures var off := AfterTakeBack(t, f);
            Up(off.parents, f.device) == None && f.device !in off.auto
            && Up(Pass(off, order).parents, f.device) == None && f.device !in Pass(off, order).auto
    decreases |order|
  {
    var off := AfterTakeBack(t, f);
    assert KeyOf(f) in off.dismissed by {
      if KeyOf(f) !in t.dismissed {
        assert off.dismissed[|off.dismissed| - 1] == KeyOf(f);
      }
    }
    if order != [] {
      var n := |order| - 1;
      TakenBackStaysOff(t, f, order[..n]);
      PassRespectsPeople(off, order[..n], f.device);
      PlaceOneTouchesOne(Pass(off, order[..n]), order[n], f.device);
    }
  }

  // ----------------------------------------------------------- starting over

  /** `order` lists each link once, in any order. */
  ghost predicate ListsLinks(order: seq<Found>, links: Parents) {
    && DistinctDevices(order)
    && (forall i :: 0 <= i < |order| ==> order[i].device in links && links[order[i].device] == order[i].parent)
    && (forall d :: d in links ==> exists i :: 0 <= i < |order| && order[i].device == d)
  }

  lemma {:induction false} RebuildIsPartOfLinks(t: Tables, order: seq<Found>, links: Parents)
    requires forall d :: Up(t.parents, d) == None
    requires forall i :: 0 <= i < |order| ==> order[i].device in links && links[order[i].device] == order[i].parent
    ensures SubLinks(Pass(t, order).parents, links)
    decreases |order|
  {
    if order != [] {
      RebuildIsPartOfLinks(t, order[..|order| - 1], links);
    }
  }

  /** Starting over in automatic mode rebuilds exactly what was worked out:
      every link found, no link refused, nothing else -- whatever the map,
      the automatic rows and the rejected places were before. */
  lemma {:induction false} WipeRebuilds(t: Tables, order: seq<Found>, links: Parents)
    requires t.automatic && ListsLinks(order, links) && Acyclic(links)
    ensures forall d :: Up(After(t, Wipe(order)).parents, d) == Up(links, d)
  {
    var w := Wiped(t);
    forall d ensures Up(Pass(w, order).parents, d) == Up(links, d) {
      if d in links {
        var i :| 0 <= i < |order| && order[i].device == d;
        PassMovesExactly(w, order, i);
        var now := Pass(w, order[..i]).parents;
        RebuildIsPartOfLinks(w, order[..i], links);
        SubLinksAcyclic(now, links);
        if order[i].parent.Some? {
          assert SubLinks(now[d := order[i].parent], links);
          SubLinksAcyclic(now[d := order[i].parent], links);
          CanParentIsExact(now, d, order[i].parent.value);
        }
      } else {
        PassLeavesOthers(w, order, d);
      }
    }
  }

  /** What discovery hands to the automatic pass: each inferred link, with the
      gateway's and the switches' roles. */
  ghost predicate Discovered(net: Net, links: Links, order: seq<Found>) {
    && ListsLinks(order, ParentsOf(links))
    && (forall i :: 0 <= i < |order| ==>
          order[i].role == if Some(order[i].device) == net.root then Some(Gateway)
                           else if order[i].device in net.tables then Some(Switch) else None)
  }
}
