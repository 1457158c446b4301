/** What the inference is for: complete tables from a real tree give that tree
    back, parents and ports (topology.infer). */
module TreeRecovery {
  import opened Prelude
  import opened Forest
  import opened Topology

  /** The cabling as it really is: what each device is plugged into, the port
      of its parent it is plugged into, and each switch's port towards the
      gateway. */
  datatype World = World(tree: Parents, port: map<Id, Port>, up: map<Id, Port>)

  ghost predicate AtOrBelow(p: Parents, d: Id, a: Id) {
    d == a || Below(p, d, a)
  }

  /** A tree with the gateway on top, one device to a port. */
  ghost predicate RealTree(w: World, root: Id) {
    && root in w.tree && w.tree[root] == None
    && Acyclic(w.tree)
    && (forall d :: d in w.tree && d != root ==> w.tree[d].Some? && w.tree[d].value in w.tree && d in w.port)
    && (forall c, e :: c in w.tree && e in w.tree && c != root && c != e && w.tree[c] == w.tree[e] ==>
          w.port[c] != w.port[e])
  }

  /** The port of `s` that leads to `d`. */
  ghost predicate LeadsTo(w: World, s: Id, d: Id, p: Port) {
    || (exists c :: c in w.port && Up(w.tree, c) == Some(s) && AtOrBelow(w.tree, d, c) && p == w.port[c])
    || (!Below(w.tree, d, s) && s in w.up && p == w.up[s])
  }

  /** A switch's table is complete and right: each device's MACs on the port
      that leads to it and on no other. MACs of devices nobody knows may be
      anywhere. */
  ghost predicate CompleteTable(net: Net, w: World, s: Id)
    requires s in net.tables
  {
    forall d, m, p :: d in w.tree && d != s && m in MacsOf(net, d) ==>
      (Learned(net, s, m, p) <==> LeadsTo(w, s, d, p))
  }

  ghost predicate Learned(net: Net, s: Id, m: Mac, p: Port)
    requires s in net.tables
  {
    p in net.tables[s] && m in net.tables[s][p]
  }

  ghost predicate CompleteTables(net: Net, w: World, root: Id) {
    && net.root == Some(root)
    && net.tables != map[]
    && (forall s :: s in net.tables ==> s in w.tree && CompleteTable(net, w, s))
    && (forall s :: s in net.tables && s != root ==> s in w.up)
    && (forall c :: c in w.tree && c != root && c in w.port && w.tree[c].Some? && w.tree[c].value in w.up ==>
          w.port[c] != w.up[w.tree[c].value])
    && (forall d :: d in net.macs ==> d in w.tree)
    && (forall d :: d in w.tree ==> MacsOf(net, d) != {})
  }

  ghost predicate Managed(net: Net, root: Id, d: Id) {
    d == root || d in net.tables
  }

  /** `d` hangs from something that gives no table -- an access point, a
      hypervisor -- that is itself on a port of a switch that does. */
  ghost predicate BehindFront(net: Net, w: World, root: Id, d: Id) {
    && Up(w.tree, d).Some?
    && var front := Up(w.tree, d).value;
    && front in net.infra && !Managed(net, root, front) && d !in net.infra
    && Up(w.tree, front).Some? && Up(w.tree, front).value in net.tables
    && (Up(net.parents, front).Some? ==>
          Up(net.parents, front).value != front
          && Up(w.tree, Up(net.parents, front).value) != Some(front))
  }

  /** Every device is plugged into the gateway, a switch, or such a front. */
  ghost predicate Shape(net: Net, w: World, root: Id) {
    forall d :: d in w.tree && Up(w.tree, d).Some? ==>
      Managed(net, root, Up(w.tree, d).value) || BehindFront(net, w, root, d)
  }

  /** LLDP rows, if any, name true neighbours. */
  ghost predicate TruthfulRow(net: Net, w: World, root: Id, s: Id, h: Heard) {
    && s in w.tree && h.neighbour in w.tree
    && (|| (Up(w.tree, h.neighbour) == Some(s) && h.neighbour in w.port && h.port == Some(w.port[h.neighbour]))
        || (Up(w.tree, s) == Some(h.neighbour)
            && (s in net.tables && s in w.up ==> h.port == Some(w.up[s]))))
  }

  ghost predicate TruthfulLldp(net: Net, w: World, root: Id) {
    forall s, i :: s in net.lldp && 0 <= i < |net.lldp[s]| ==> TruthfulRow(net, w, root, s, net.lldp[s][i])
  }

  ghost predicate Reported(net: Net, w: World, root: Id) {
    RealTree(w, root) && CompleteTables(net, w, root) && Shape(net, w, root) && TruthfulLldp(net, w, root)
  }

  // ----------------------------------------------------------------- the tree

  lemma RootIsBelowNothing(w: World, root: Id, s: Id)
    requires RealTree(w, root)
    ensures !Below(w.tree, root, s)
  {
    BelowStep(w.tree, root, s);
  }

  /** The child of `s` on the way to `d`. */
  lemma {:induction false} PathChild(w: World, root: Id, s: Id, d: Id) returns (c: Id)
    requires RealTree(w, root) && Below(w.tree, d, s)
    ensures c in w.port && c in w.tree && c != root && Up(w.tree, c) == Some(s) && AtOrBelow(w.tree, d, c)
  {
    var n: nat :| n > 0 && Climb(w.tree, d, n) == Some(s);
    ClimbPrefix(w.tree, d, n - 1, n);
    c := Climb(w.tree, d, n - 1).value;
    ClimbAdd(w.tree, d, n - 1, 1);
    assert Climb(w.tree, c, 1) == Some(s);
    assert Climb(w.tree, s, 0) == Some(s);
    if n > 1 { assert Below(w.tree, d, c); }
  }

  lemma {:induction false} PathChildUnique(w: World, root: Id, s: Id, d: Id, c: Id, e: Id)
    requires RealTree(w, root)
    requires Up(w.tree, c) == Some(s) && AtOrBelow(w.tree, d, c)
    requires Up(w.tree, e) == Some(s) && AtOrBelow(w.tree, d, e)
    ensures c == e
  {
    if c != e {
      if d != c && d != e {
        Linear(w.tree, d, c, e);
      }
      var lower, upper := if Below(w.tree, c, e) then c else e, if Below(w.tree, c, e) then e else c;
      assert Below(w.tree, lower, upper) && !Below(w.tree, upper, upper);
      BelowParent(w.tree, upper, s);
      BelowStep(w.tree, lower, upper);
      if s != upper {
        BelowTrans(w.tree, upper, s, upper);
      }
    }
  }

  /** A child's port is not also the way up. */
  lemma PathPortIsDown(net: Net, w: World, root: Id, s: Id, c: Id)
    requires RealTree(w, root) && CompleteTables(net, w, root)
    requires c in w.tree && c != root && Up(w.tree, c) == Some(s) && s in w.up
    ensures w.port[c] != w.up[s]
  {
  }

  // ----------------------------------------------------- what each switch sees

  lemma {:induction false} UplinkIsUp(net: Net, w: World, root: Id, s: Id)
    requires RealTree(w, root) && CompleteTables(net, w, root) && s in net.tables
    ensures Placed(net, s)
    ensures UplinkOf(net, s) == if s == root then None else Some(w.up[s])
  {
    if s != root {
      RootIsBelowNothing(w, root, s);
      var ports, up := net.tables[s], w.up[s];
      forall m, p | m in MacsOf(net, root)
        ensures Learned(net, s, m, p) <==> p == up
      {
        assert Learned(net, s, m, p) <==> LeadsTo(w, s, root, p);
        if c :| c in w.port && Up(w.tree, c) == Some(s) && AtOrBelow(w.tree, root, c) && p == w.port[c] {
          RootIsBelowNothing(w, root, c);
          assert false;
        }
      }
      var some := Any(MacsOf(net, root));
      assert Learned(net, s, some, up);
      assert ports[up] * MacsOf(net, root) == MacsOf(net, root) by {
        forall m | m in MacsOf(net, root) ensures m in ports[up] {
          assert Learned(net, s, m, up);
        }
      }
      assert Hits(net, ports, up) > 0;
      forall p | p in ports && p != up ensures Hits(net, ports, p) == 0 {
        forall m | m in MacsOf(net, root) ensures m !in ports[p] {
          assert !Learned(net, s, m, p);
        }
        assert ports[p] * MacsOf(net, root) == {};
      }
      assert BestPorts(net, s) == {up};
    }
  }

  /** A switch sees downstream exactly what is below it, on the child's port. */
  lemma {:induction false} SeesBelow(net: Net, w: World, root: Id, s: Id, d: Id, c: Id)
    requires RealTree(w, root) && CompleteTables(net, w, root) && s in net.tables && d in w.tree
    requires c in w.port && Up(w.tree, c) == Some(s) && AtOrBelow(w.tree, d, c) && c in w.tree && c != root
    ensures Placed(net, s) && Sees(net, s, d) == Some(w.port[c])
  {
    UplinkIsUp(net, w, root, s);
    BelowParent(w.tree, c, s);
    if d != c { BelowTrans(w.tree, d, c, s); }
    assert d != s by { assert !Below(w.tree, s, s); }
    forall m | m in MacsOf(net, d) ensures DownPorts(net, s, m) == {w.port[c]} {
      forall p ensures Learned(net, s, m, p) <==> p == w.port[c] {
        assert Learned(net, s, m, p) <==> LeadsTo(w, s, d, p);
        if e :| e in w.port && Up(w.tree, e) == Some(s) && AtOrBelow(w.tree, d, e) && p == w.port[e] {
          PathChildUnique(w, root, s, d, c, e);
        }
      }
      assert Learned(net, s, m, w.port[c]);
      if s != root { PathPortIsDown(net, w, root, s, c); }
      forall p ensures p in DownPorts(net, s, m) <==> p == w.port[c] {
        assert Learned(net, s, m, p) <==> p == w.port[c];
      }
    }
    var hits := set m | m in MacsOf(net, d) && DownPorts(net, s, m) != {} :: Least(DownPorts(net, s, m));
    var some := Any(MacsOf(net, d));
    assert Least(DownPorts(net, s, some)) in hits;
    assert hits == {w.port[c]};
  }

  lemma {:induction false} SeesNotAbove(net: Net, w: World, root: Id, s: Id, d: Id)
    requires RealTree(w, root) && CompleteTables(net, w, root) && s in net.tables && d in w.tree
    requires d != s && !Below(w.tree, d, s)
    ensures Placed(net, s) && Sees(net, s, d) == None
    ensures s != root ==> forall m :: m in MacsOf(net, d) ==> SeenUp(net, m)
  {
    UplinkIsUp(net, w, root, s);
    forall m | m in MacsOf(net, d)
      ensures DownPorts(net, s, m) == {}
      ensures s != root ==> SeenUp(net, m)
    {
      forall p ensures Learned(net, s, m, p) <==> s in w.up && p == w.up[s] {
        assert Learned(net, s, m, p) <==> LeadsTo(w, s, d, p);
        if c :| c in w.port && Up(w.tree, c) == Some(s) && AtOrBelow(w.tree, d, c) && p == w.port[c] {
          BelowParent(w.tree, c, s);
          if d != c { BelowTrans(w.tree, d, c, s); }
          assert false;
        }
      }
      if s == root {
        AllBelowRoot(w, root, d);
      } else {
        assert Learned(net, s, m, w.up[s]);
        assert LearnedUp(net, s, m);
        forall p ensures p !in DownPorts(net, s, m) {
          assert Learned(net, s, m, p) <==> p == w.up[s];
        }
      }
    }
    assert (set m | m in MacsOf(net, d) && DownPorts(net, s, m) != {} :: Least(DownPorts(net, s, m))) == {};
  }

  lemma {:induction false} AllBelowRoot(w: World, root: Id, d: Id)
    requires RealTree(w, root) && d in w.tree && d != root
    ensures Below(w.tree, d, root)
  {
    AcyclicIsGrounded(w.tree, d);
    var n: nat :| Climb(w.tree, d, n) == None;
    EndsAtRoot(w, root, d, n);
  }

  lemma {:induction false} EndsAtRoot(w: World, root: Id, d: Id, n: nat)
    requires RealTree(w, root) && d in w.tree && Climb(w.tree, d, n) == None && d != root
    ensures Below(w.tree, d, root)
    decreases n
  {
    var q := w.tree[d].value;
    BelowParent(w.tree, d, q);
    if q != root {
      EndsAtRoot(w, root, q, n - 1);
      BelowTrans(w.tree, d, q, root);
    }
  }

  lemma {:induction false} CandidatesAreAbove(net: Net, w: World, root: Id, d: Id)
    requires RealTree(w, root) && CompleteTables(net, w, root) && d in w.tree
    ensures forall s :: s in Candidates(net, d) <==> s in net.tables && Below(w.tree, d, s)
  {
    forall s ensures s in Candidates(net, d) <==> s in net.tables && Below(w.tree, d, s) {
      if s in net.tables {
        SeesIffBelow(net, w, root, s, d);
        assert !Below(w.tree, d, d);
      }
    }
  }

  lemma {:induction false} SeesIffBelow(net: Net, w: World, root: Id, s: Id, d: Id)
    requires RealTree(w, root) && CompleteTables(net, w, root) && s in net.tables && d in w.tree
    ensures Placed(net, s)
    ensures d != s ==> (Sees(net, s, d).Some? <==> Below(w.tree, d, s))
  {
    UplinkIsUp(net, w, root, s);
    if d != s {
      if Below(w.tree, d, s) {
        var c := PathChild(w, root, s, d);
        SeesBelow(net, w, root, s, d, c);
      } else {
        SeesNotAbove(net, w, root, s, d);
      }
    }
  }

  // ------------------------------------------------- the nearest switch above a device

  /** The nearest thing above `d` that gives a table, if that is its parent or
      its parent's parent. */
  function Holder(net: Net, w: World, d: Id): Option<Id> {
    match Up(w.tree, d)
    case None => None
    case Some(q) =>
      if q in net.tables then Some(q)
      else match Up(w.tree, q)
        case None => None
        case Some(s) => if s in net.tables then Some(s) else None
  }

  /** The child of the holder on the way to `d`. */
  function Branch(net: Net, w: World, d: Id): Id {
    match Up(w.tree, d)
    case None => d
    case Some(q) => if q in net.tables then d else q
  }

  lemma {:induction false} HolderIsNearest(net: Net, w: World, root: Id, d: Id, s: Id)
    requires RealTree(w, root) && CompleteTables(net, w, root)
    requires d in w.tree && Holder(net, w, d).Some? && s in net.tables
    ensures Below(w.tree, d, Holder(net, w, d).value)
    ensures Below(w.tree, d, s) ==> s == Holder(net, w, d).value || Below(w.tree, Holder(net, w, d).value, s)
  {
    var q, h := Up(w.tree, d).value, Holder(net, w, d).value;
    BelowParent(w.tree, d, q);
    BelowStep(w.tree, d, s);
    if q != h {
      BelowParent(w.tree, q, h);
      BelowTrans(w.tree, d, q, h);
      BelowStep(w.tree, q, s);
    }
  }

  lemma {:induction false} BranchLeads(net: Net, w: World, root: Id, d: Id)
    requires RealTree(w, root) && CompleteTables(net, w, root)
    requires d in w.tree && Holder(net, w, d).Some?
    ensures var c := Branch(net, w, d);
            c in w.port && c in w.tree && c != root && Up(w.tree, c) == Holder(net, w, d) && AtOrBelow(w.tree, d, c)
  {
    var q := Up(w.tree, d).value;
    BelowParent(w.tree, d, q);
    assert d != root;
  }

  /** The set whose size is a candidate's score: the other candidates above it. */
  ghost function ScoreSet(net: Net, d: Id, c: Id): set<Id>
    requires net.root.Some?
  {
    set o | o in Candidates(net, d) && o != c && Sees(net, o, c).Some?
  }

  lemma {:induction false} ScoreSetIs(net: Net, w: World, root: Id, d: Id, c: Id)
    requires RealTree(w, root) && CompleteTables(net, w, root) && d in w.tree && c in net.tables
    ensures ScoreSet(net, d, c) == set o | o in Candidates(net, d) && Below(w.tree, c, o)
  {
    forall o | o in Candidates(net, d)
      ensures o in ScoreSet(net, d, c) <==> Below(w.tree, c, o)
    {
      SeesIffBelow(net, w, root, o, c);
      assert !Below(w.tree, c, c);
    }
  }

  /** The nearest switch scores more than any other candidate: every other one
      sees it, and none of those sees it from below. */
  lemma {:induction false} DeepestIsHolder(net: Net, w: World, root: Id, d: Id)
    requires RealTree(w, root) && CompleteTables(net, w, root)
    requires d in w.tree && Holder(net, w, d).Some?
    ensures Deepest(net, d) == {Holder(net, w, d).value}
  {
    var h := Holder(net, w, d).value;
    var all := Candidates(net, d);
    CandidatesAreAbove(net, w, root, d);
    HolderIsNearest(net, w, root, d, h);
    assert h in all;
    ScoreSetIs(net, w, root, d, h);
    forall o | o in all && o != h ensures Below(w.tree, h, o) {
      HolderIsNearest(net, w, root, d, o);
    }
    assert !Below(w.tree, h, h);
    assert ScoreSet(net, d, h) == all - {h};
    assert Score(net, d, h) == |all| - 1;
    forall c | c in all && c != h ensures Score(net, d, c) < Score(net, d, h) {
      ScoreSetIs(net, w, root, d, c);
      HolderIsNearest(net, w, root, d, c);
      assert !Below(w.tree, c, c);
      if Below(w.tree, c, h) {
        BelowTrans(w.tree, c, h, c);
      }
      assert ScoreSet(net, d, c) <= all - {h} - {c};
      SubsetSize(ScoreSet(net, d, c), all - {h} - {c});
    }
  }

  // ---------------------------------------------------------- the claims are true

  lemma {:induction false} HeldByMac(net: Net, w: World, root: Id, d: Id)
    requires RealTree(w, root) && CompleteTables(net, w, root)
    requires d in w.tree && Holder(net, w, d).Some?
    ensures MacClaim(net, d) ==
            Some(Link(Holder(net, w, d), Holder(net, w, d), Some(w.port[BranchIn(net, w, root, d)]), ByMac))
  {
    var h := Holder(net, w, d).value;
    DeepestIsHolder(net, w, root, d);
    BranchLeads(net, w, root, d);
    SeesBelow(net, w, root, h, d, Branch(net, w, d));
    assert Any(Deepest(net, d)) in {h};
    assert h in Candidates(net, d);
  }

  ghost function BranchIn(net: Net, w: World, root: Id, d: Id): (c: Id)
    requires RealTree(w, root) && CompleteTables(net, w, root)
    requires d in w.tree && Holder(net, w, d).Some?
    ensures c in w.port && c == Branch(net, w, d)
  {
    BranchLeads(net, w, root, d);
    Branch(net, w, d)
  }

  /** On the gateway itself, when it gives no table. */
  lemma {:induction false} TopByUplink(net: Net, w: World, root: Id, d: Id)
    requires RealTree(w, root) && CompleteTables(net, w, root)
    requires d in w.tree && Up(w.tree, d) == Some(root) && root !in net.tables
    ensures MacClaim(net, d) == Some(if d in net.tables then Link(Some(root), Some(d), Some(w.up[d]), Top)
                                     else Link(Some(root), None, None, Uplinked))
  {
    CandidatesAreAbove(net, w, root, d);
    forall s | s in net.tables ensures !Below(w.tree, d, s) {
      BelowStep(w.tree, d, s);
      RootIsBelowNothing(w, root, s);
    }
    assert Candidates(net, d) == {};
    assert d != root;
    if d in net.tables {
      UplinkIsUp(net, w, root, d);
    } else {
      var s := Any(net.tables.Keys);
      SeesNotAbove(net, w, root, s, d);
      var m := Any(MacsOf(net, d));
      assert SeenUp(net, m);
    }
  }

  /** The tables alone put `d` on `parent`, on the true port of the switch that
      says so. */
  ghost predicate TrueByTables(net: Net, w: World, root: Id, d: Id, l: Link) {
    && l.parent == Up(w.tree, d) && l.parent.Some?
    && match l.source
       case ByMac => d in w.port && l.via == l.parent && l.port == Some(w.port[d])
       case Behind => l.parent.value in w.port && l.via == Up(w.tree, l.parent.value)
                        && l.port == Some(w.port[l.parent.value])
       case Top => d in net.tables && d in w.up && l.via == Some(d) && l.port == Some(w.up[d])
       case Uplinked => l.parent == Some(root) && d !in net.tables && l.via == None && l.port == None
       case _ => false
  }

  /** A port's group is the device plugged into it and what hides behind that. */
  lemma {:induction false} GroupIsBranch(net: Net, w: World, root: Id, byMac: Links, d: Id, x: Id)
    requires Reported(net, w, root) && IsMacLinks(net, byMac)
    requires d in w.tree && Holder(net, w, d).Some?
    requires d in byMac && byMac[d].source == ByMac
    requires x in OnPort(byMac, byMac[d].parent, byMac[d].port)
    ensures x in w.tree && Holder(net, w, x) == Holder(net, w, d) && Branch(net, w, x) == Branch(net, w, d)
  {
    HeldByMac(net, w, root, d);
    assert x in net.macs || x == root;
    assert x in w.tree && x != root;
    var q := Up(w.tree, x).value;
    assert Some(byMac[x]) == MacClaim(net, x);
    if Holder(net, w, x).None? {
      assert q == root;
      TopByUplink(net, w, root, x);
      assert false;
    }
    HeldByMac(net, w, root, x);
    BranchLeads(net, w, root, x);
    BranchLeads(net, w, root, d);
  }

  lemma {:induction false} MemberOfOwnGroup(net: Net, w: World, root: Id, byMac: Links, d: Id, x: Id)
    requires Reported(net, w, root) && IsMacLinks(net, byMac)
    requires d in w.tree && Holder(net, w, d).Some? && x in w.tree && x != root
    requires Holder(net, w, x) == Holder(net, w, d) && Branch(net, w, x) == Branch(net, w, d)
    ensures d in byMac && byMac[d].source == ByMac && x in OnPort(byMac, byMac[d].parent, byMac[d].port)
  {
    HeldByMac(net, w, root, d);
    HeldByMac(net, w, root, x);
    assert MacsOf(net, d) != {} && MacsOf(net, x) != {};
    assert d in byMac && x in byMac;
  }

  lemma OnlyFrontsHide(net: Net, w: World, root: Id, x: Id)
    requires Shape(net, w, root) && x in w.tree
    requires Up(w.tree, x).Some? && !Managed(net, root, Up(w.tree, x).value)
    ensures BehindFront(net, w, root, x)
  {
  }

  /** A device with a table-giving parent is never put behind anything. */
  lemma {:induction false} DirectStays(net: Net, w: World, root: Id, byMac: Links, d: Id)
    requires Reported(net, w, root) && IsMacLinks(net, byMac)
    requires d in w.tree && Up(w.tree, d).Some? && Up(w.tree, d).value in net.tables
    ensures d in byMac && d in w.port && BehindClaim(net, byMac, d) == byMac[d]
    ensures byMac[d] == Link(w.tree[d], w.tree[d], Some(w.port[d]), ByMac)
  {
    BranchLeads(net, w, root, d);
    MemberOfOwnGroup(net, w, root, byMac, d, d);
    HeldByMac(net, w, root, d);
    var group := OnPort(byMac, byMac[d].parent, byMac[d].port);
    var front := FrontOf(net, group);
    forall x | x in front ensures x == d {
      GroupIsBranch(net, w, root, byMac, d, x);
      if x != d {
        assert Up(w.tree, x) == Some(d) && d !in net.tables && d != root;
        OnlyFrontsHide(net, w, root, x);
      }
    }
    if |front| == 1 {
      assert Any(front) == d;
    }
  }

  /** What hides behind a front is put behind it. */
  lemma {:induction false} HiddenIsFound(net: Net, w: World, root: Id, byMac: Links, d: Id)
    requires Reported(net, w, root) && IsMacLinks(net, byMac)
    requires d in w.tree && BehindFront(net, w, root, d)
    ensures d in byMac && TrueByTables(net, w, root, d, BehindClaim(net, byMac, d))
  {
    var q := Up(w.tree, d).value;
    assert d != root;
    assert q in w.tree;
    MemberOfOwnGroup(net, w, root, byMac, d, d);
    MemberOfOwnGroup(net, w, root, byMac, d, q);
    HeldByMac(net, w, root, d);
    var group := OnPort(byMac, byMac[d].parent, byMac[d].port);
    var front := FrontOf(net, group);
    forall x | x in group ensures x == q || Up(w.tree, x) == Some(q) {
      GroupIsBranch(net, w, root, byMac, d, x);
    }
    forall x | x in front ensures x == q {
      if x != q {
        OnlyFrontsHide(net, w, root, x);
      }
    }
    assert q in front;
    assert front == {q};
    assert d != q by { BelowParent(w.tree, d, q); assert !Below(w.tree, d, d); }
    SubsetSize({d, q}, group);
    BranchLeads(net, w, root, d);
  }

  /** Before LLDP and loops: every device is claimed, and truly. */
  lemma {:induction false} TablesTellTheTruth(net: Net, w: World, root: Id, byMac: Links, d: Id)
    requires Reported(net, w, root) && IsMacLinks(net, byMac)
    requires d in w.tree && d != root
    ensures d in byMac && TrueByTables(net, w, root, d, BehindClaim(net, byMac, d))
  {
    assert MacsOf(net, d) != {};
    var q := Up(w.tree, d).value;
    if q in net.tables {
      DirectStays(net, w, root, byMac, d);
    } else if BehindFront(net, w, root, d) {
      HiddenIsFound(net, w, root, byMac, d);
    } else {
      assert q == root;
      TopByUplink(net, w, root, d);
    }
  }

  // ------------------------------------------------------------------------- LLDP

  /** A report LLDP made true, seen from either end. */
  ghost predicate TrueReport(net: Net, w: World, root: Id, r: Report) {
    TruthfulRow(net, w, root, r.switch, Heard(r.port, r.neighbour))
  }

  lemma {:induction false} AllReportsTrue(net: Net, w: World, root: Id, switches: set<Id>)
    requires TruthfulLldp(net, w, root) && switches <= net.lldp.Keys
    ensures forall k :: 0 <= k < |ReportsOver(net, switches)| ==>
              TrueReport(net, w, root, ReportsOver(net, switches)[k])
    decreases |switches|
  {
    if switches != {} {
      var last := Greatest(switches);
      AllReportsTrue(net, w, root, switches - {last});
      var before, mine := ReportsOver(net, switches - {last}), ReportsOf(last, net.lldp[last]);
      forall k | 0 <= k < |before + mine| ensures TrueReport(net, w, root, (before + mine)[k]) {
        if k >= |before| {
          var i := k - |before|;
          assert (before + mine)[k] == Report(last, net.lldp[last][i].port, net.lldp[last][i].neighbour);
          assert TruthfulRow(net, w, root, last, net.lldp[last][i]);
        }
      }
    }
  }

  /** The link LLDP gives is a true one, named from one end or the other. */
  ghost predicate TrueByLldp(net: Net, w: World, d: Id, l: Link) {
    && l.source == ByLldp && l.parent.Some? && l.parent == Up(w.tree, d)
    && (|| (l.via == l.parent && d in w.port && l.port == Some(w.port[d]))
        || (l.via == Some(d) && (d in net.tables && d in w.up ==> l.port == Some(w.up[d]))))
  }

  lemma {:induction false} ReportIsTrue(net: Net, w: World, root: Id, r: Report)
    requires Reported(net, w, root) && TrueReport(net, w, root, r)
    ensures HeardBelow(net, r) ==> TrueByLldp(net, w, r.neighbour, Link(Some(r.switch), Some(r.switch), r.port, ByLldp))
    ensures HeardAbove(net, r) ==> TrueByLldp(net, w, r.switch, Link(Some(r.neighbour), Some(r.switch), r.port, ByLldp))
  {
    if r.switch in net.tables {
      UplinkIsUp(net, w, root, r.switch);
    }
    if Up(w.tree, r.neighbour) == Some(r.switch) && r.switch in w.up {
      PathPortIsDown(net, w, root, r.switch, r.neighbour);
    }
  }

  lemma {:induction false} FirstIsTrue(net: Net, w: World, root: Id, reports: seq<Report>, d: Id)
    requires Reported(net, w, root)
    requires forall k :: 0 <= k < |reports| ==> TrueReport(net, w, root, reports[k])
    ensures FirstBelow(net, reports, d).Some? ==> TrueByLldp(net, w, d, FirstBelow(net, reports, d).value)
    ensures FirstAbove(net, reports, d).Some? ==> TrueByLldp(net, w, d, FirstAbove(net, reports, d).value)
    decreases |reports|
  {
    if reports != [] {
      var n := |reports| - 1;
      FirstIsTrue(net, w, root, reports[..n], d);
      ReportIsTrue(net, w, root, reports[n]);
    }
  }

  // -------------------------------------------------------------------- the theorem

  /** A true place: the real parent, with the port of the end that reported it. */
  ghost predicate TruePlace(net: Net, w: World, root: Id, d: Id, l: Link) {
    if d == root then l == Link(None, None, None, Root)
    else TrueByLldp(net, w, d, l) || TrueByTables(net, w, root, d, l)
  }

  lemma {:induction false} ClaimsAreTheTree(net: Net, w: World, root: Id, claims: Links)
    requires Reported(net, w, root) && IsClaims(net, claims)
    ensures claims.Keys == w.tree.Keys
    ensures forall d :: d in claims ==> TruePlace(net, w, root, d, claims[d])
  {
    var byMac: Links, placed: Links :|
      IsMacLinks(net, byMac) && IsBehindLinks(net, byMac, placed) && IsOverlay(net, placed, claims);
    AllReportsTrue(net, w, root, net.lldp.Keys);
    forall d
      ensures d in claims <==> d in w.tree
      ensures d in claims ==> TruePlace(net, w, root, d, claims[d])
    {
      FirstIsTrue(net, w, root, AllReports(net), d);
      if d == root {
        assert d in byMac && Some(byMac[d]) == MacClaim(net, root);
      } else if d in w.tree {
        TablesTellTheTruth(net, w, root, byMac, d);
      } else {
        assert d !in byMac && Up(w.tree, d) == None;
      }
    }
  }

  /** Complete tables from a real tree make the inference return that tree:
      exactly its devices, each on its true parent and the true port. */
  lemma {:induction false} InferRecoversTheTree(net: Net, w: World, root: Id, out: Links)
    requires Reported(net, w, root) && Inferred(net, out)
    ensures ParentsOf(out) == w.tree
    ensures forall d :: d in out ==> TruePlace(net, w, root, d, out[d])
  {
    var claims: Links :| IsClaims(net, claims) && WithoutLoopsOf(claims, out);
    ClaimsSurvive(net, w, root, claims, out);
  }

  lemma {:induction false} ClaimsSurvive(net: Net, w: World, root: Id, claims: Links, out: Links)
    requires Reported(net, w, root) && IsClaims(net, claims) && WithoutLoopsOf(claims, out)
    ensures out == claims && ParentsOf(out) == w.tree
    ensures forall d :: d in out ==> TruePlace(net, w, root, d, out[d])
  {
    ClaimsAreTheTree(net, w, root, claims);
    assert ParentsOf(claims) == w.tree by {
      forall d | d in claims ensures claims[d].parent == w.tree[d] {
        assert TruePlace(net, w, root, d, claims[d]);
      }
    }
    forall d ensures d in out <==> d in claims {
      if d in claims {
        WithoutLoopsDropsOnlyLoops(claims, out, d);
      }
    }
    assert out == claims;
  }

  /** Without LLDP, a device whose parent gives a table is named by that
      parent, port and all. */
  lemma {:induction false} ParentNamesThePort(net: Net, w: World, root: Id, out: Links, d: Id)
    requires Reported(net, w, root) && Inferred(net, out) && net.lldp == map[]
    requires d in w.tree && Up(w.tree, d).Some? && Up(w.tree, d).value in net.tables
    ensures d in out && d in w.port
    ensures out[d] == Link(w.tree[d], w.tree[d], Some(w.port[d]), ByMac)
  {
    var claims: Links :| IsClaims(net, claims) && WithoutLoopsOf(claims, out);
    ClaimsSurvive(net, w, root, claims, out);
    var byMac: Links, placed: Links :|
      IsMacLinks(net, byMac) && IsBehindLinks(net, byMac, placed) && IsOverlay(net, placed, claims);
    assert AllReports(net) == [];
    assert LldpClaim(net, AllReports(net), d) == None;
    DirectStays(net, w, root, byMac, d);
  }
}

/** ... and what starting over then stores (topology.infer, topology.wipe). */
module MapRecovery {
  import opened Forest
  import opened Topology
  import opened TreeRecovery
  import MapMode

  /** From the cable to the page: with complete tables from a real tree,
      starting the map over in automatic mode draws the tree as it is. */
  lemma {:induction false} WipedMapIsTheTree(net: Net, w: World, root: Id, out: Links,
                                             t: MapMode.Tables, order: seq<MapMode.Found>)
    requires Reported(net, w, root) && Inferred(net, out)
    requires t.automatic && MapMode.Discovered(net, out, order)
    ensures forall d :: Up(MapMode.After(t, MapMode.Wipe(order)).parents, d) == Up(w.tree, d)
  {
    InferRecoversTheTree(net, w, root, out);
    MapMode.WipeRebuilds(t, order, w.tree);
  }
}
