/** Parent maps and the chains above a device (hierarchy.py).

    A parent map sends a device's id to the id of its parent device, if it has
    one. Nothing here assumes the map has no loops: stored by other means it may
    have some, and the walks must still stop. */
module Forest {
  import opened Prelude

  type Id = int
  type Parents = map<Id, Option<Id>>

  const MAX_DEPTH := 32

  /** The stored parent; a device without a row has none. */
  function Up(p: Parents, d: Id): Option<Id> {
    if d in p then p[d] else None
  }

  /** The device `n` steps above `d`, if the chain is that long. */
  function Climb(p: Parents, d: Id, n: nat): Option<Id>
    decreases n
  {
    if n == 0 then Some(d)
    else match Up(p, d)
      case None => None
      case Some(q) => Climb(p, q, n - 1)
  }

  /** `d` is somewhere below `a`. */
  ghost predicate Below(p: Parents, d: Id, a: Id) {
    exists n: nat :: n > 0 && Climb(p, d, n) == Some(a)
  }

  ghost predicate Acyclic(p: Parents) {
    forall d :: !Below(p, d, d)
  }

  /** The chain above `d` comes to an end. */
  ghost predicate Grounded(p: Parents, d: Id) {
    exists n: nat :: Climb(p, d, n) == None
  }

  // ---------------------------------------------------------------- chains

  lemma {:induction false} ClimbAdd(p: Parents, d: Id, m: nat, n: nat)
    requires Climb(p, d, m).Some?
    ensures Climb(p, d, m + n) == Climb(p, Climb(p, d, m).value, n)
    decreases m
  {
    if m > 0 {
      ClimbAdd(p, Up(p, d).value, m - 1, n);
    }
  }

  lemma {:induction false} ClimbPrefix(p: Parents, d: Id, m: nat, n: nat)
    requires m <= n && Climb(p, d, n).Some?
    ensures Climb(p, d, m).Some?
    decreases m
  {
    if m > 0 {
      ClimbPrefix(p, Up(p, d).value, m - 1, n - 1);
    }
  }

  /** A chain that comes back to where it started never ends. */
  lemma {:induction false} CycleNeverEnds(p: Parents, x: Id, k: nat, n: nat)
    requires k > 0 && Climb(p, x, k) == Some(x)
    ensures Climb(p, x, n).Some?
    decreases n
  {
    if n <= k {
      ClimbPrefix(p, x, n, k);
    } else {
      CycleNeverEnds(p, x, k, n - k);
      ClimbAdd(p, x, k, n - k);
    }
  }

  /** A chain that visits one device twice never ends. */
  lemma {:induction false} RepeatNeverEnds(p: Parents, d: Id, i: nat, j: nat)
    requires i < j && Climb(p, d, i).Some? && Climb(p, d, i) == Climb(p, d, j)
    ensures !Grounded(p, d)
  {
    var x := Climb(p, d, i).value;
    ClimbAdd(p, d, i, j - i);
    forall n: nat ensures Climb(p, d, n).Some? {
      if n <= i {
        ClimbPrefix(p, d, n, i);
      } else {
        CycleNeverEnds(p, x, j - i, n - i);
        ClimbAdd(p, d, i, n - i);
      }
    }
  }

  lemma {:induction false} BelowTrans(p: Parents, a: Id, b: Id, c: Id)
    requires Below(p, a, b) && Below(p, b, c)
    ensures Below(p, a, c)
  {
    var m: nat :| m > 0 && Climb(p, a, m) == Some(b);
    var n: nat :| n > 0 && Climb(p, b, n) == Some(c);
    ClimbAdd(p, a, m, n);
  }

  lemma {:induction false} NoLoop(p: Parents, x: Id, n: nat)
    requires Acyclic(p) && n > 0
    ensures Climb(p, x, n) != Some(x)
  {
    assert !Below(p, x, x);
  }

  lemma BelowParent(p: Parents, d: Id, q: Id)
    requires Up(p, d) == Some(q)
    ensures Below(p, d, q)
  {
    assert Climb(p, q, 0) == Some(q);
    assert Climb(p, d, 1) == Some(q);
  }

  /** The first step of a chain: everything above `d` is its parent or above
      its parent. */
  lemma {:induction false} BelowStep(p: Parents, d: Id, a: Id)
    ensures Below(p, d, a) <==> Up(p, d).Some? && (Up(p, d).value == a || Below(p, Up(p, d).value, a))
  {
    if Below(p, d, a) {
      var n: nat :| n > 0 && Climb(p, d, n) == Some(a);
      assert Climb(p, Up(p, d).value, n - 1) == Some(a);
      if n == 1 {
        assert Up(p, d).value == a;
      }
    }
    if Up(p, d).Some? {
      BelowParent(p, d, Up(p, d).value);
      if Below(p, Up(p, d).value, a) {
        BelowTrans(p, d, Up(p, d).value, a);
      }
    }
  }

  /** In a map without loops, two devices above the same one are in line. */
  lemma {:induction false} Linear(p: Parents, d: Id, a: Id, b: Id)
    requires Below(p, d, a) && Below(p, d, b)
    ensures a == b || Below(p, a, b) || Below(p, b, a)
  {
    var m: nat :| m > 0 && Climb(p, d, m) == Some(a);
    var n: nat :| n > 0 && Climb(p, d, n) == Some(b);
    if m <= n {
      ClimbAdd(p, d, m, n - m);
      if m < n { assert Below(p, a, b); }
    } else {
      ClimbAdd(p, d, n, m - n);
      assert Below(p, b, a);
    }
  }

  // ------------------------------------------------------- hierarchy.ancestors

  /** The chain above a device, step by step, until it ends, meets a device
      again or reaches the limit. */
  method Ancestors(p: Parents, device: Id) returns (chain: seq<Id>)
    ensures |chain| <= MAX_DEPTH
    ensures forall i :: 0 <= i < |chain| ==> Climb(p, device, i + 1) == Some(chain[i])
    ensures device !in chain && Distinct(chain)
    ensures |chain| < MAX_DEPTH ==>
      match Climb(p, device, |chain| + 1)
      case None => true
      case Some(a) => a == device || a in chain
  {
    chain := [];
    var seen := {device};
    var current := device;
    for step := 0 to MAX_DEPTH
      invariant |chain| == step
      invariant seen == Elements(chain) + {device}
      invariant Climb(p, device, step) == Some(current)
      invariant forall i :: 0 <= i < |chain| ==> Climb(p, device, i + 1) == Some(chain[i])
      invariant device !in chain && Distinct(chain)
    {
      var parent := Up(p, current);
      ClimbAdd(p, device, step, 1);
      assert parent.Some? ==> Climb(p, parent.value, 0) == parent;
      if parent.None? || parent.value in seen {
        return;
      }
      chain := chain + [parent.value];
      seen := seen + {parent.value};
      current := parent.value;
    }
  }

  /** In a map without loops, a chain the limit did not cut lists exactly the
      devices above. */
  lemma {:induction false} AncestorsComplete(p: Parents, device: Id, chain: seq<Id>)
    requires Acyclic(p)
    requires forall i :: 0 <= i < |chain| ==> Climb(p, device, i + 1) == Some(chain[i])
    requires match Climb(p, device, |chain| + 1)
             case None => true
             case Some(a) => a == device || a in chain
    ensures forall a :: a in chain <==> Below(p, device, a)
  {
    var top := Climb(p, device, |chain| + 1);
    if top.Some? {
      // a repeat would be a loop
      if top.value != device {
        var i :| 0 <= i < |chain| && chain[i] == top.value;
        ClimbAdd(p, device, i + 1, |chain| - i);
        NoLoop(p, chain[i], |chain| - i);
      } else {
        NoLoop(p, device, |chain| + 1);
      }
      assert false;
    }
    forall a ensures a in chain <==> Below(p, device, a) {
      if a in chain {
        var i :| 0 <= i < |chain| && chain[i] == a;
        assert Climb(p, device, i + 1) == Some(a);
      }
      if Below(p, device, a) {
        var n: nat :| n > 0 && Climb(p, device, n) == Some(a);
        if n > |chain| {
          ClimbPrefix(p, device, |chain| + 1, n);
        } else {
          assert a == chain[n - 1];
        }
      }
    }
  }

  // ----------------------------------------------------- hierarchy.descendants

  /** What `descendants` promises: every other device whose chain reaches
      `device`, and nothing else. */
  ghost predicate AreDescendants(p: Parents, device: Id, found: set<Id>) {
    forall c :: c in found <==> c != device && Below(p, c, device)
  }

  ghost predicate ListsChildren(p: Parents, todo: set<Id>, kids: map<Id, seq<Id>>) {
    && (forall q, c :: q in kids && c in kids[q] ==> c in p && p[c] == Some(q))
    && (forall c :: c in p && c !in todo && p[c].Some? ==>
          p[c].value in kids && c in kids[p[c].value])
  }

  /** id -> the ids below it directly. */
  method ChildrenOf(p: Parents) returns (kids: map<Id, seq<Id>>)
    ensures ListsChildren(p, {}, kids)
  {
    kids := map[];
    var todo := p.Keys;
    while todo != {}
      invariant todo <= p.Keys
      invariant ListsChildren(p, todo, kids)
      decreases |todo|
    {
      var child := Take(todo);
      todo := todo - {child};
      if p[child].Some? {
        var parent := p[child].value;
        var before := if parent in kids then kids[parent] else [];
        kids := kids[parent := before + [child]];
        assert child in kids[parent];
      }
    }
  }

  /** Children of what is settled are found (or are the device itself). */
  ghost predicate Closed(p: Parents, device: Id, found: set<Id>, settled: set<Id>) {
    forall c :: c in p && p[c].Some? && p[c].value in settled ==> c in found || c == device
  }

  lemma {:induction false} ClosedFindsAll(p: Parents, device: Id, found: set<Id>, c: Id, n: nat)
    requires Closed(p, device, found, found + {device})
    requires Climb(p, c, n) == Some(device)
    ensures c in found || c == device
    decreases n
  {
    if n > 0 {
      ClosedFindsAll(p, device, found, Up(p, c).value, n - 1);
    }
  }

  /** What the walk has found so far is below the device, and so is what it
      still has to look under. */
  ghost predicate FoundBelow(p: Parents, device: Id, found: set<Id>, stack: seq<Id>) {
    && found <= p.Keys
    && (forall c :: c in found ==> c != device && Below(p, c, device))
    && (forall x :: x in stack ==> x in found || x == device)
  }

  method Descendants(p: Parents, device: Id) returns (found: set<Id>)
    ensures AreDescendants(p, device, found)
    ensures found <= p.Keys
  {
    var kids := ChildrenOf(p);
    found := {};
    var stack := [device];
    while stack != []
      invariant FoundBelow(p, device, found, stack)
      invariant Closed(p, device, found, (found + {device}) - Elements(stack))
      decreases p.Keys - found, |stack|
    {
      var x := stack[|stack| - 1];
      var below := if x in kids then kids[x] else [];
      found, stack := LookUnder(p, device, x, below, found, stack);
    }
    assert Elements(stack) == {};
    assert (found + {device}) - {} == found + {device};
    forall c | c != device && Below(p, c, device) ensures c in found {
      var n: nat :| n > 0 && Climb(p, c, n) == Some(device);
      ClosedFindsAll(p, device, found, c, n);
    }
  }

  /** Pop the last of the stack and push the children not met before. */
  method LookUnder(p: Parents, device: Id, x: Id, below: seq<Id>, found: set<Id>, stack: seq<Id>)
    returns (found': set<Id>, stack': seq<Id>)
    requires stack != [] && x == stack[|stack| - 1]
    requires FoundBelow(p, device, found, stack)
    requires forall c :: c in below ==> c in p && p[c] == Some(x)
    requires forall c :: c in p && p[c] == Some(x) ==> c in below
    requires Closed(p, device, found, (found + {device}) - Elements(stack))
    ensures found <= found'
    ensures FoundBelow(p, device, found', stack')
    ensures Closed(p, device, found', (found' + {device}) - Elements(stack'))
    ensures found' == found ==> |stack'| < |stack|
  {
    found', stack' := found, stack[..|stack| - 1];
    assert forall y :: y in stack <==> y in stack' || y == x;
    for i := 0 to |below|
      invariant found <= found' && FoundBelow(p, device, found', stack')
      invariant found' == found ==> |stack'| < |stack|
      invariant forall y :: y in found' + {device} && y !in stack' ==>
                  y == x || y in (found + {device}) - Elements(stack)
      invariant forall k :: 0 <= k < i ==> below[k] in found' || below[k] == device
    {
      var child := below[i];
      if child !in found' && child != device {
        BelowParent(p, child, x);
        if x != device { BelowTrans(p, child, x, device); }
        found' := found' + {child};
        stack' := stack' + [child];
      }
    }
    forall c | c in p && p[c].Some? && p[c].value in (found' + {device}) - Elements(stack')
      ensures c in found' || c == device
    {
      if p[c].value == x {
        assert c in below;
      } else {
        assert p[c].value in (found + {device}) - Elements(stack);
      }
    }
  }

  // ------------------------------------------------------ hierarchy.can_parent

  /** What `can_parent` decides. */
  ghost predicate MayParent(p: Parents, device: Id, parent: Id) {
    parent != device && !Below(p, parent, device)
  }

  method CanParent(p: Parents, device: Id, parent: Id) returns (ok: bool)
    ensures ok <==> MayParent(p, device, parent)
  {
    if parent == device {
      return false;
    }
    var below := Descendants(p, device);
    ok := parent !in below;
  }

  /** A chain that does not pass `d` is the same after `d` is moved. */
  lemma {:induction false} ClimbAvoiding(p: Parents, d: Id, q: Option<Id>, x: Id, n: nat)
    requires forall i: nat :: i < n ==> Climb(p, x, i) != Some(d)
    ensures Climb(p[d := q], x, n) == Climb(p, x, n)
    decreases n
  {
    if n > 0 {
      assert Climb(p, x, 0) == Some(x);
      if Up(p, x).Some? {
        var y := Up(p, x).value;
        forall i: nat | i < n - 1 ensures Climb(p, y, i) != Some(d) {
          assert Climb(p, x, i + 1) == Climb(p, y, i);
        }
        ClimbAvoiding(p, d, q, y, n - 1);
      }
    }
  }

  /** The first time a chain reaches `d`. */
  lemma {:induction false} FirstVisit(p: Parents, x: Id, d: Id, n: nat) returns (k: nat)
    requires Climb(p, x, n) == Some(d)
    ensures k <= n && Climb(p, x, k) == Some(d)
    ensures forall i: nat :: i < k ==> Climb(p, x, i) != Some(d)
    decreases n
  {
    if i: nat :| i < n && Climb(p, x, i) == Some(d) {
      k := FirstVisit(p, x, d, i);
    } else {
      k := n;
    }
  }

  /** If `q` is not at or below `d`, its chain does not change when `d` moves. */
  lemma {:induction false} ClimbFromAllowed(p: Parents, d: Id, q: Id, n: nat)
    requires MayParent(p, d, q)
    ensures Climb(p[d := Some(q)], q, n) == Climb(p, q, n)
  {
    forall i: nat | i < n ensures Climb(p, q, i) != Some(d) {
      if i == 0 { assert Climb(p, q, 0) == Some(q); }
    }
    ClimbAvoiding(p, d, Some(q), q, n);
  }

  /** A move that `can_parent` allows cannot make a loop: any loop in the new
      map either avoids the moved device, and was there before, or would pass
      from the new parent back down to the device. */
  lemma {:induction false} AllowedMoveKeepsAcyclic(p: Parents, d: Id, q: Id)
    requires Acyclic(p) && MayParent(p, d, q)
    ensures Acyclic(p[d := Some(q)])
  {
    var p' := p[d := Some(q)];
    forall x ensures !Below(p', x, x) {
      if Below(p', x, x) {
        var n: nat :| n > 0 && Climb(p', x, n) == Some(x);
        if i: nat :| i < n && Climb(p', x, i) == Some(d) {
          // the loop passes d, so it climbs from q back to d
          ClimbAdd(p', x, i, n - i);
          assert Climb(p', d, n - i) == Some(x);
          ClimbAdd(p', d, n - i, i);
          assert Climb(p', d, n) == Some(d);
          assert Climb(p', q, n - 1) == Some(d);
          ClimbFromAllowed(p, d, q, n - 1);
          if n - 1 > 0 { assert Below(p, q, d); }
          assert false;
        } else {
          assert p == p'[d := Up(p, d)] || d !in p;
          ClimbSameAvoiding(p, p', d, x, n);
          NoLoop(p, x, n);
          assert false;
        }
      }
    }
  }

  lemma {:induction false} ClimbSameAvoiding(p: Parents, p': Parents, d: Id, x: Id, n: nat)
    requires forall y :: y != d ==> Up(p, y) == Up(p', y)
    requires forall i: nat :: i < n ==> Climb(p', x, i) != Some(d)
    ensures Climb(p, x, n) == Climb(p', x, n)
    decreases n
  {
    if n > 0 {
      assert Climb(p', x, 0) == Some(x);
      if Up(p', x).Some? {
        var y := Up(p', x).value;
        forall i: nat | i < n - 1 ensures Climb(p', y, i) != Some(d) {
          assert Climb(p', x, i + 1) == Climb(p', y, i);
        }
        ClimbSameAvoiding(p, p', d, y, n - 1);
      }
    }
  }

  /** The guard is exact: in a map without loops, `can_parent` refuses a move
      if and only if making it would close a loop. */
  lemma {:induction false} CanParentIsExact(p: Parents, d: Id, q: Id)
    requires Acyclic(p)
    ensures MayParent(p, d, q) <==> Acyclic(p[d := Some(q)])
  {
    if MayParent(p, d, q) {
      AllowedMoveKeepsAcyclic(p, d, q);
    } else {
      var p' := p[d := Some(q)];
      BelowParent(p', d, q);
      if q != d {
        var n: nat :| n > 0 && Climb(p, q, n) == Some(d);
        var k := FirstVisit(p, q, d, n);
        assert Climb(p, q, 0) == Some(q);
        ClimbAvoiding(p, d, Some(q), q, k);
        assert Below(p', q, d);
        BelowTrans(p', d, q, d);
      }
      assert Below(p', d, d);
    }
  }

  /** Taking a parent away never makes a loop. */
  lemma {:induction false} DetachKeepsAcyclic(p: Parents, d: Id)
    requires Acyclic(p)
    ensures Acyclic(p[d := None])
  {
    SubLinksAcyclic(p[d := None], p);
  }

  /** Every link of the smaller map is a link of the larger. */
  ghost predicate SubLinks(small: Parents, large: Parents) {
    forall d :: Up(small, d).Some? ==> Up(large, d) == Up(small, d)
  }

  lemma {:induction false} FewerLinks(small: Parents, large: Parents, x: Id, n: nat)
    requires SubLinks(small, large)
    requires Climb(small, x, n).Some?
    ensures Climb(large, x, n) == Climb(small, x, n)
    decreases n
  {
    if n > 0 {
      FewerLinks(small, large, Up(small, x).value, n - 1);
    }
  }

  lemma {:induction false} SubLinksAcyclic(small: Parents, large: Parents)
    requires SubLinks(small, large) && Acyclic(large)
    ensures Acyclic(small)
  {
    forall x ensures !Below(small, x, x) {
      if Below(small, x, x) {
        var n: nat :| n > 0 && Climb(small, x, n) == Some(x);
        FewerLinks(small, large, x, n);
        assert Below(large, x, x);
      }
    }
  }

  /** A finite map has no loop exactly when every chain ends. */
  lemma {:induction false} GroundedIsAcyclic(p: Parents)
    requires forall d :: d in p ==> Grounded(p, d)
    ensures Acyclic(p)
  {
    forall x ensures !Below(p, x, x) {
      if Below(p, x, x) {
        var n: nat :| n > 0 && Climb(p, x, n) == Some(x);
        assert x in p;
        assert Climb(p, x, 0) == Some(x);
        RepeatNeverEnds(p, x, 0, n);
      }
    }
  }

  // ------------------------------------------------------------ loop finding

  /** The chain above `d` passes `x` within its first `n` devices. */
  ghost predicate Visits(p: Parents, d: Id, n: nat, x: Id) {
    exists i: nat :: i < n && Climb(p, d, i) == Some(x)
  }

  /** Whether the chain above `d` comes back on itself inside the map: the
      walk of topology._without_loops and servicemap._loops. */
  method ChainLoops(p: Parents, d: Id) returns (looped: bool)
    requires d in p
    ensures looped <==> !Grounded(p, d)
  {
    var seen := {d};
    var current := p[d];
    ghost var n: nat := 1;
    assert Climb(p, d, 0) == Some(d) && Visits(p, d, 1, d);
    assert current.Some? ==> Climb(p, current.value, 0) == current;
    while current.Some? && current.value in p
      invariant n > 0 && Climb(p, d, n) == current
      invariant seen <= p.Keys
      invariant forall x :: x in seen ==> Visits(p, d, n, x)
      decreases p.Keys - seen
    {
      if current.value in seen {
        assert Visits(p, d, n, current.value);
        ghost var i: nat :| i < n && Climb(p, d, i) == Some(current.value);
        RepeatNeverEnds(p, d, i, n);
        return true;
      }
      ClimbAdd(p, d, n, 1);
      ghost var next := Up(p, current.value);
      assert next.Some? ==> Climb(p, next.value, 0) == next;
      assert Visits(p, d, n + 1, current.value);
      assert forall x :: Visits(p, d, n, x) ==> Visits(p, d, n + 1, x);
      seen := seen + {current.value};
      current := p[current.value];
      n := n + 1;
    }
    if current.Some? {
      ClimbAdd(p, d, n, 1);
      assert Climb(p, d, n + 1) == None;
    }
    looped := false;
  }

  /** What hangs above an ending chain ends too. */
  lemma {:induction false} GroundedParent(p: Parents, d: Id)
    requires Up(p, d).Some?
    ensures Grounded(p, d) <==> Grounded(p, Up(p, d).value)
  {
    var q := Up(p, d).value;
    if Grounded(p, d) {
      var n: nat :| Climb(p, d, n) == None;
      assert Climb(p, q, n - 1) == None;
    }
    if Grounded(p, q) {
      var n: nat :| Climb(p, q, n) == None;
      assert Climb(p, d, n + 1) == None;
    }
  }

  /** Conversely, in a map without loops every chain ends: one as long as the
      map has devices would repeat. */
  lemma {:induction false} AcyclicIsGrounded(p: Parents, d: Id)
    requires Acyclic(p)
    ensures Grounded(p, d)
  {
    var k := |p| + 1;
    if Climb(p, d, k).Some? {
      var seen := ChainSet(p, d, k);
      SubsetSize(seen, p.Keys);
    }
  }

  /** The devices of an unfinished chain without repeats are all different. */
  lemma {:induction false} ChainSet(p: Parents, d: Id, k: nat) returns (seen: set<Id>)
    requires Acyclic(p) && Climb(p, d, k).Some?
    ensures seen <= p.Keys && |seen| == k
    ensures forall x :: x in seen ==> Visits(p, d, k, x)
    decreases k
  {
    if k == 0 {
      seen := {};
    } else {
      ClimbPrefix(p, d, k - 1, k);
      var before := ChainSet(p, d, k - 1);
      var x := Climb(p, d, k - 1).value;
      ClimbAdd(p, d, k - 1, 1);
      if x in before {
        var i: nat :| i < k - 1 && Climb(p, d, i) == Some(x);
        ClimbAdd(p, d, i, k - 1 - i);
        NoLoop(p, x, k - 1 - i);
      }
      assert Visits(p, d, k, x);
      assert forall y :: Visits(p, d, k - 1, y) ==> Visits(p, d, k, y);
      seen := before + {x};
    }
  }
}
