/** The service map: a stored parent map, loops and all, turned into trees
    (servicemap.py). */
module ServiceMap {
  import opened Prelude
  import opened Forest
  import opened Sorting

  /** What the map knows of a device, ignored ones left out: its stored parent,
      whether its role is set, and how it stands among others by role and then
      name, and by name alone. */
  datatype Device = Device(parent: Option<Id>, hasRole: bool, byRole: int, byName: int)

  type Devices = map<Id, Device>

  function StoredParents(devices: Devices): Parents {
    map d | d in devices :: devices[d].parent
  }

  /** Some device on the map is declared to hang from `d`. */
  predicate HasChild(devices: Devices, d: Id) {
    exists c :: c in devices && devices[c].parent == Some(d)
  }

  /** A device somebody gave a role, or that is at either end of a link. */
  predicate IsPlaced(devices: Devices, d: Id) {
    d in devices &&
    (devices[d].hasRole
     || (devices[d].parent.Some? && devices[d].parent.value in devices)
     || HasChild(devices, d))
  }

  /** A device is drawn under its parent if that is on the map and the chain
      above does not come back on itself. */
  ghost predicate IsAttached(devices: Devices, d: Id) {
    && d in devices && devices[d].parent.Some? && devices[d].parent.value in devices
    && Grounded(StoredParents(devices), d)
  }

  /** The links that are drawn. */
  ghost function Drawn(devices: Devices): Parents {
    map d | d in devices :: if IsAttached(devices, d) then devices[d].parent else None
  }

  /** Each device's list of children, in some order. */
  type Kids = map<Id, seq<Id>>

  ghost predicate KidsOf(q: Parents, kids: Kids) {
    && kids.Keys == q.Keys
    && (forall d :: d in kids ==> Distinct(kids[d]))
    && (forall d, c :: d in kids ==> (c in kids[d] <==> c in q && q[c] == Some(d)))
  }

  function ByRole(devices: Devices): Id -> int {
    d => if d in devices then devices[d].byRole else 0
  }

  function ByName(devices: Devices): Id -> int {
    d => if d in devices then devices[d].byName else 0
  }

  // ------------------------------------------------------------------- the program

  /** The trees' lists, the roots and the devices not placed. */
  method Build(devices: Devices) returns (kids: Kids, roots: seq<Id>, unplaced: seq<Id>)
    ensures forall d :: d in kids ==> Ordered(kids[d], ByRole(devices))
    ensures Ordered(roots, ByRole(devices)) && Ordered(unplaced, ByName(devices))
    ensures KidsOf(Drawn(devices), kids)
    ensures Distinct(roots) && forall d :: d in roots <==> IsPlaced(devices, d) && !IsAttached(devices, d)
    ensures Distinct(unplaced) && forall d :: d in unplaced <==> d in devices && !IsPlaced(devices, d)
  {
    var hasChild := set d | d in devices && devices[d].parent.Some? && devices[d].parent.value in devices
                      :: devices[d].parent.value;
    var placed := set d | d in devices && (devices[d].hasRole
                      || (devices[d].parent.Some? && devices[d].parent.value in devices) || d in hasChild);
    forall d | d in devices ensures d in hasChild <==> HasChild(devices, d) {
    }
    assert forall d :: d in placed <==> IsPlaced(devices, d);
    var attached: set<Id>;
    kids, attached := Attach(devices, placed);
    kids := SortEach(kids, Drawn(devices), ByRole(devices));
    roots := ToSeq(placed - attached, ByRole(devices));
    unplaced := ToSeq(devices.Keys - placed, ByName(devices));
  }

  /** Every device's children into their order. */
  method SortEach(kids: Kids, ghost q: Parents, key: Id -> int) returns (sorted: Kids)
    requires KidsOf(q, kids)
    ensures KidsOf(q, sorted) && forall d :: d in sorted ==> Ordered(sorted[d], key)
  {
    sorted := kids;
    var todo := kids.Keys;
    while todo != {}
      invariant todo <= sorted.Keys && KidsOf(q, sorted)
      invariant forall d :: d in sorted && d !in todo ==> Ordered(sorted[d], key)
      decreases |todo|
    {
      var d := Take(todo);
      todo := todo - {d};
      SortedIs(sorted[d], key);
      SameMembers(sorted[d], Sorted(sorted[d], key));
      sorted := sorted[d := Sorted(sorted[d], key)];
    }
  }

  lemma {:induction false} SameMembers(s: seq<Id>, t: seq<Id>)
    requires Distinct(s) && multiset(t) == multiset(s)
    ensures Distinct(t) && forall x :: x in t <==> x in s
  {
    forall x ensures x in t <==> x in s {
      assert x in t <==> x in multiset(t);
    }
    DistinctAsMultiset(s);
    forall i, j | 0 <= i < j < |t| ensures t[i] != t[j] {
      assert t == t[..i] + [t[i]] + t[i + 1..j] + [t[j]] + t[j + 1..];
      assert multiset(t)[t[i]] <= 1;
    }
  }

  /** Children onto parents. */
  method Attach(devices: Devices, placed: set<Id>) returns (kids: Kids, attached: set<Id>)
    requires forall d :: d in placed <==> IsPlaced(devices, d)
    ensures KidsOf(Drawn(devices), kids)
    ensures forall d :: d in attached <==> IsAttached(devices, d)
  {
    var parents := StoredParents(devices);
    kids := map d | d in devices :: [];
    attached := {};
    var todo := placed;
    while todo != {}
      invariant todo <= placed
      invariant forall d :: d in attached <==> IsAttached(devices, d) && d !in todo
      invariant ListsAttached(devices, attached, kids)
      decreases |todo|
    {
      var device := Take(todo);
      todo := todo - {device};
      var parent := devices[device].parent;
      if parent.Some? && parent.value in devices && parent.value != device {
        var looped := ChainLoops(parents, device);
        if !looped {
          ListsOneMore(devices, attached, kids, device, parent.value);
          kids := kids[parent.value := kids[parent.value] + [device]];
          attached := attached + {device};
        }
      } else if parent == Some(device) {
        SelfParentIsLoop(devices, device);
      }
    }
    ListsAllDrawn(devices, attached, kids);
  }

  /** The lists hold exactly the devices attached so far, each under its parent. */
  ghost predicate ListsAttached(devices: Devices, attached: set<Id>, kids: Kids) {
    && kids.Keys == devices.Keys && attached <= devices.Keys
    && (forall d :: d in kids ==> Distinct(kids[d]))
    && (forall d, c :: d in kids ==> (c in kids[d] <==> c in attached && devices[c].parent == Some(d)))
  }

  lemma ListsOneMore(devices: Devices, attached: set<Id>, kids: Kids, device: Id, parent: Id)
    requires ListsAttached(devices, attached, kids)
    requires device in devices && device !in attached && devices[device].parent == Some(parent) && parent in devices
    ensures ListsAttached(devices, attached + {device}, kids[parent := kids[parent] + [device]])
  {
    assert device !in kids[parent];
  }

  lemma ListsAllDrawn(devices: Devices, attached: set<Id>, kids: Kids)
    requires ListsAttached(devices, attached, kids)
    requires forall d :: d in attached <==> IsAttached(devices, d)
    ensures KidsOf(Drawn(devices), kids)
  {
    forall d, c | d in kids ensures c in kids[d] <==> c in Drawn(devices) && Drawn(devices)[c] == Some(d) {
      assert c in attached <==> IsAttached(devices, c);
    }
  }

  lemma {:induction false} SelfParentIsLoop(devices: Devices, d: Id)
    requires d in devices && devices[d].parent == Some(d)
    ensures !IsAttached(devices, d)
  {
    var p := StoredParents(devices);
    assert Climb(p, d, 0) == Some(d);
    assert Climb(p, d, 1) == Some(d);
    RepeatNeverEnds(p, d, 0, 1);
  }

  /** A set as a list, in order. */
  method ToSeq(s: set<Id>, key: Id -> int) returns (out: seq<Id>)
    ensures Distinct(out) && (forall d :: d in out <==> d in s) && Ordered(out, key)
  {
    var all: seq<Id> := [];
    var todo := s;
    while todo != {}
      invariant todo <= s
      invariant Distinct(all) && forall d :: d in all <==> d in s - todo
      decreases |todo|
    {
      var d := Take(todo);
      assert d !in all;
      todo := todo - {d};
      all := all + [d];
    }
    out := Sorted(all, key);
    SortedIs(all, key);
    SameMembers(all, out);
  }

  // -------------------------------------------------------------------- the trees

  lemma {:induction false} DrawnIsForest(devices: Devices)
    ensures Acyclic(Drawn(devices))
  {
    var p, q := StoredParents(devices), Drawn(devices);
    forall d | d in q ensures Grounded(q, d) {
      if q[d] == None {
        assert Climb(q, d, 1) == None;
      } else {
        var n: nat :| Climb(p, d, n) == None;
        if Climb(q, d, n).Some? {
          FewerLinks(q, p, d, n);
          assert false;
        }
      }
    }
    GroundedIsAcyclic(q);
  }

  ghost function BelowSet(q: Parents, d: Id): set<Id> {
    set c | c in q && Below(q, c, d)
  }

  /** A node's own device, then everything listed under each child in turn. */
  ghost function Listing(q: Parents, kids: Kids, d: Id): seq<Id>
    requires Acyclic(q) && KidsOf(q, kids) && d in q
    decreases BelowSet(q, d) + {d}, 0, 0
  {
    KidsAreBelow(q, kids, d);
    assert d !in BelowSet(q, d);
    [d] + ListingAll(q, kids, kids[d], BelowSet(q, d))
  }

  /** The trees of several nodes, one after the other. */
  ghost function ListingAll(q: Parents, kids: Kids, ds: seq<Id>, within: set<Id>): seq<Id>
    requires Acyclic(q) && KidsOf(q, kids)
    requires forall d :: d in ds ==> d in q && BelowSet(q, d) + {d} <= within
    decreases within, 1, |ds|
  {
    if ds == [] then [] else
      assert ds[0] in ds;
      Listing(q, kids, ds[0]) + ListingAll(q, kids, ds[1..], within)
  }

  lemma {:induction false} KidsAreBelow(q: Parents, kids: Kids, d: Id)
    requires Acyclic(q) && KidsOf(q, kids) && d in q
    ensures forall c :: c in kids[d] ==> c in q && BelowSet(q, c) + {c} <= BelowSet(q, d)
  {
    forall c | c in kids[d] ensures c in q && BelowSet(q, c) + {c} <= BelowSet(q, d) {
      BelowParent(q, c, d);
      forall x | x in BelowSet(q, c) ensures x in BelowSet(q, d) {
        BelowTrans(q, x, c, d);
      }
    }
  }

  /** Node.count: itself and its children's counts. */
  ghost function Count(q: Parents, kids: Kids, d: Id): nat
    requires Acyclic(q) && KidsOf(q, kids) && d in q
    decreases BelowSet(q, d) + {d}, 0, 0
  {
    KidsAreBelow(q, kids, d);
    assert d !in BelowSet(q, d);
    1 + CountAll(q, kids, kids[d], BelowSet(q, d))
  }

  ghost function CountAll(q: Parents, kids: Kids, ds: seq<Id>, within: set<Id>): nat
    requires Acyclic(q) && KidsOf(q, kids)
    requires forall d :: d in ds ==> d in q && BelowSet(q, d) + {d} <= within
    decreases within, 1, |ds|
  {
    if ds == [] then 0 else
      assert ds[0] in ds;
      Count(q, kids, ds[0]) + CountAll(q, kids, ds[1..], within)
  }

  /** Everything at or below one of `ds`. */
  ghost function Under(q: Parents, ds: seq<Id>): set<Id> {
    set x | x in q && exists d :: d in ds && (x == d || Below(q, x, d))
  }

  /** No one of `ds` is above another. */
  ghost predicate Apart(q: Parents, ds: seq<Id>) {
    Distinct(ds) && forall a, b :: a in ds && b in ds ==> !Below(q, a, b)
  }

  lemma {:induction false} KidsAreApart(q: Parents, kids: Kids, d: Id)
    requires Acyclic(q) && KidsOf(q, kids) && d in q
    ensures Apart(q, kids[d]) && Under(q, kids[d]) == BelowSet(q, d)
  {
    forall a, b | a in kids[d] && b in kids[d] ensures !Below(q, a, b) {
      if Below(q, a, b) {
        BelowStep(q, a, b);
        BelowParent(q, b, d);
        assert !Below(q, d, d);
        if d != b { BelowTrans(q, d, b, d); }
      }
    }
    KidsAreBelow(q, kids, d);
    forall x ensures x in Under(q, kids[d]) <==> x in BelowSet(q, d) {
      if x in Under(q, kids[d]) {
        var c :| c in kids[d] && (x == c || Below(q, x, c));
        assert x in BelowSet(q, c) + {c};
      }
      if x in BelowSet(q, d) {
        var n: nat :| n > 0 && Climb(q, x, n) == Some(d);
        ClimbPrefix(q, x, n - 1, n);
        ClimbAdd(q, x, n - 1, 1);
        var c := Climb(q, x, n - 1).value;
        assert Climb(q, d, 0) == Some(d) && Climb(q, c, 1) == Some(d);
        assert c in kids[d];
      }
    }
  }

  /** The trees of devices none of which is above another list everything at or
      below them exactly once, and count it. */
  lemma {:induction false} ListedOnce(q: Parents, kids: Kids, ds: seq<Id>, within: set<Id>)
    requires Acyclic(q) && KidsOf(q, kids) && Apart(q, ds)
    requires forall d :: d in ds ==> d in q && BelowSet(q, d) + {d} <= within
    ensures multiset(ListingAll(q, kids, ds, within)) == multiset(Under(q, ds))
    ensures CountAll(q, kids, ds, within) == |ListingAll(q, kids, ds, within)|
    decreases within, 1, |ds|
  {
    if ds == [] {
      assert Under(q, ds) == {};
    } else {
      var d, rest := ds[0], ds[1..];
      assert ds == [d] + rest && d in ds;
      assert forall x :: x in rest ==> x in ds;
      UnderSplit(q, d, rest);
      NodeListedOnce(q, kids, d);
      ListedOnce(q, kids, rest, within);
    }
  }

  lemma {:induction false} NodeListedOnce(q: Parents, kids: Kids, d: Id)
    requires Acyclic(q) && KidsOf(q, kids) && d in q
    ensures multiset(Listing(q, kids, d)) == multiset(BelowSet(q, d) + {d})
    ensures Count(q, kids, d) == |Listing(q, kids, d)|
    decreases BelowSet(q, d) + {d}, 0, 0
  {
    KidsAreBelow(q, kids, d);
    KidsAreApart(q, kids, d);
    assert d !in BelowSet(q, d);
    ListedOnce(q, kids, kids[d], BelowSet(q, d));
  }

  lemma {:induction false} UnderSplit(q: Parents, d: Id, rest: seq<Id>)
    requires Acyclic(q) && Apart(q, [d] + rest) && d in q
    ensures Apart(q, rest)
    ensures multiset(Under(q, [d] + rest)) == multiset(BelowSet(q, d) + {d}) + multiset(Under(q, rest))
  {
    var ds := [d] + rest;
    assert forall x :: x in ds <==> x == d || x in rest;
    assert forall i :: 0 <= i < |rest| ==> rest[i] == ds[i + 1];
    assert ds[0] == d;
    forall x ensures !(x in BelowSet(q, d) + {d} && x in Under(q, rest)) {
      if x in BelowSet(q, d) + {d} && x in Under(q, rest) {
        var e :| e in rest && (x == e || Below(q, x, e));
        if x != d && x != e {
          Linear(q, x, d, e);
        }
        assert false;
      }
    }
    forall x ensures x in Under(q, ds) <==> x in BelowSet(q, d) + {d} || x in Under(q, rest) {
    }
    Partition(Under(q, ds), BelowSet(q, d) + {d}, Under(q, rest));
  }

  /** Every device on the map appears exactly once, in one root's tree or in the
      unplaced list, and the roots' counts and the unplaced make up the total. */
  lemma {:induction false} EveryDeviceOnce(devices: Devices, kids: Kids, roots: seq<Id>, unplaced: seq<Id>)
    requires KidsOf(Drawn(devices), kids)
    requires Distinct(roots) && forall d :: d in roots <==> IsPlaced(devices, d) && !IsAttached(devices, d)
    requires Distinct(unplaced) && forall d :: d in unplaced <==> d in devices && !IsPlaced(devices, d)
    ensures Acyclic(Drawn(devices))
    ensures forall d :: d in roots ==> d in Drawn(devices) && BelowSet(Drawn(devices), d) + {d} <= devices.Keys
    ensures multiset(ListingAll(Drawn(devices), kids, roots, devices.Keys)) + multiset(unplaced)
            == multiset(devices.Keys)
    ensures CountAll(Drawn(devices), kids, roots, devices.Keys) + |unplaced| == |devices|
  {
    var q := Drawn(devices);
    DrawnIsForest(devices);
    RootsCoverPlaced(devices, roots);
    assert forall d :: d in roots ==> d in q && BelowSet(q, d) + {d} <= devices.Keys;
    ListedOnce(q, kids, roots, devices.Keys);
    DistinctAsMultiset(unplaced);
    Partition(devices.Keys, Under(q, roots), Elements(unplaced));
    assert |multiset(unplaced)| == |unplaced|;
    assert |multiset(ListingAll(q, kids, roots, devices.Keys))| == |ListingAll(q, kids, roots, devices.Keys)|;
  }

  lemma Partition<T>(all: set<T>, a: set<T>, b: set<T>)
    requires forall d :: d in all <==> d in a || d in b
    requires forall d :: !(d in a && d in b)
    ensures multiset(all) == multiset(a) + multiset(b)
    ensures |all| == |multiset(a)| + |multiset(b)|
  {
    assert all == a + b && a !! b;
    assert |multiset(all)| == |all|;
  }

  lemma {:induction false} RootsCoverPlaced(devices: Devices, roots: seq<Id>)
    requires Distinct(roots) && forall d :: d in roots <==> IsPlaced(devices, d) && !IsAttached(devices, d)
    ensures Apart(Drawn(devices), roots)
    ensures forall d :: d in Under(Drawn(devices), roots) <==> IsPlaced(devices, d)
  {
    var q := Drawn(devices);
    DrawnIsForest(devices);
    forall a, b | a in roots && b in roots ensures !Below(q, a, b) {
      BelowStep(q, a, b);
    }
    forall d ensures d in Under(q, roots) <==> IsPlaced(devices, d) {
      if d in Under(q, roots) {
        var r :| r in roots && (d == r || Below(q, d, r));
        if d != r { BelowStep(q, d, r); }
      }
      if IsPlaced(devices, d) {
        AcyclicIsGrounded(q, d);
        var n: nat :| Climb(q, d, n) == None;
        HangsFromRoot(devices, roots, d, n);
      }
    }
  }

  lemma {:induction false} DistinctAsMultiset(s: seq<Id>)
    requires Distinct(s)
    ensures multiset(s) == multiset(Elements(s))
    decreases |s|
  {
    if s != [] {
      var n := |s| - 1;
      var t := s[..n];
      assert s == t + [s[n]];
      DistinctAsMultiset(t);
      assert s[n] !in t;
      assert Elements(s) == Elements(t) + {s[n]};
    }
  }

  /** Every placed device's drawn chain ends at a root. */
  lemma {:induction false} HangsFromRoot(devices: Devices, roots: seq<Id>, d: Id, n: nat)
    requires forall r :: r in roots <==> IsPlaced(devices, r) && !IsAttached(devices, r)
    requires IsPlaced(devices, d) && Climb(Drawn(devices), d, n) == None
    ensures d in Under(Drawn(devices), roots)
    decreases n
  {
    var q := Drawn(devices);
    if q[d] == None {
      assert d in roots;
    } else {
      var up := q[d].value;
      assert HasChild(devices, up);
      HangsFromRoot(devices, roots, up, n - 1);
      var r :| r in roots && (up == r || Below(q, up, r));
      BelowParent(q, d, up);
      if up != r { BelowTrans(q, d, up, r); }
    }
  }
}
