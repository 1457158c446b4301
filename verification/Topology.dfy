/** Working out the tree of devices from the switches' tables (topology.py).

    The specification is a function of the report, device by device (`Claim`);
    `Infer` is the program's own sequence of loops, proved to give it. */
module Topology {
  import opened Prelude
  import opened Forest

  type Mac = string
  type Port = int

  /** The reports read from the switches, and which device is the gateway. */
  datatype Net = Net(
    macs: map<Id, set<Mac>>,
    tables: map<Id, map<Port, set<Mac>>>,
    lldp: map<Id, seq<Heard>>,
    infra: set<Id>,
    root: Option<Id>,
    parents: Parents)

  datatype Heard = Heard(port: Option<Port>, neighbour: Id)

  datatype Source = Root | ByMac | Behind | Top | Uplinked | ByLldp

  datatype Link = Link(parent: Option<Id>, via: Option<Id>, port: Option<Port>, source: Source)

  type Links = map<Id, Link>

  function ParentsOf(links: Links): Parents {
    map d | d in links :: links[d].parent
  }

  // -------------------------------------------------------------- dropping loops

  /** The links whose chain leaves the map, and no others. */
  ghost predicate WithoutLoopsOf(links: Links, out: Links) {
    forall d :: (d in out <==> d in links && Grounded(ParentsOf(links), d))
             && (d in out ==> out[d] == links[d])
  }

  method WithoutLoops(links: Links) returns (out: Links)
    ensures WithoutLoopsOf(links, out)
  {
    out := map[];
    var todo := links.Keys;
    while todo != {}
      invariant todo <= links.Keys
      invariant forall d :: (d in out <==> d in links && d !in todo && Grounded(ParentsOf(links), d))
                         && (d in out ==> out[d] == links[d])
      decreases |todo|
    {
      var device := Take(todo);
      todo := todo - {device};
      var looped := ChainLoops(ParentsOf(links), device);
      if !looped {
        out := out[device := links[device]];
      }
    }
  }

  /** What is kept has no loop, and hangs from something kept or from outside. */
  lemma {:induction false} WithoutLoopsIsForest(links: Links, out: Links)
    requires WithoutLoopsOf(links, out)
    ensures Acyclic(ParentsOf(out))
    ensures forall d :: d in out && out[d].parent.Some? ==>
              out[d].parent.value in out || out[d].parent.value !in links
  {
    var p, q := ParentsOf(links), ParentsOf(out);
    assert SubLinks(q, p);
    forall d | d in q ensures Grounded(q, d) {
      var n: nat :| Climb(p, d, n) == None;
      if Climb(q, d, n).Some? {
        FewerLinks(q, p, d, n);
        assert false;
      }
    }
    GroundedIsAcyclic(q);
    forall d | d in out && out[d].parent.Some? && out[d].parent.value in links
      ensures out[d].parent.value in out
    {
      GroundedParent(p, d);
    }
  }

  /** Nothing is dropped that did not have to be: whatever is left out has a
      chain that never ends. */
  lemma {:induction false} WithoutLoopsDropsOnlyLoops(links: Links, out: Links, d: Id)
    requires WithoutLoopsOf(links, out)
    requires Acyclic(ParentsOf(links)) && d in links
    ensures d in out
  {
    AcyclicIsGrounded(ParentsOf(links), d);
  }

  // ------------------------------------------------- what the tables say, device by device

  function MacsOf(net: Net, d: Id): set<Mac> {
    if d in net.macs then net.macs[d] else {}
  }

  /** How many of the gateway's MACs a port learned. */
  function Hits(net: Net, ports: map<Port, set<Mac>>, port: Port): nat
    requires net.root.Some? && port in ports
  {
    |ports[port] * MacsOf(net, net.root.value)|
  }

  /** The ports that learned the most of the gateway, if any learned it. */
  function BestPorts(net: Net, s: Id): set<Port>
    requires net.root.Some? && s in net.tables
  {
    var ports := net.tables[s];
    set p | p in ports && Hits(net, ports, p) > 0
         && forall q :: q in ports ==> Hits(net, ports, q) <= Hits(net, ports, p)
  }

  /** A switch whose report says which way is up. */
  predicate Placed(net: Net, s: Id)
    requires net.root.Some?
  {
    s in net.tables && (s == net.root.value || BestPorts(net, s) != {})
  }

  /** The port towards the gateway: none on the gateway itself. */
  function UplinkOf(net: Net, s: Id): Option<Port>
    requires net.root.Some? && Placed(net, s)
  {
    if s == net.root.value then None else Some(Least(BestPorts(net, s)))
  }

  /** The downstream ports a MAC was learned on. */
  function DownPorts(net: Net, s: Id, mac: Mac): set<Port>
    requires net.root.Some? && Placed(net, s)
  {
    set p | p in net.tables[s] && Some(p) != UplinkOf(net, s) && mac in net.tables[s][p]
  }

  /** Some switch learned the MAC on its uplink. */
  ghost predicate SeenUp(net: Net, mac: Mac)
    requires net.root.Some?
  {
    exists s :: Placed(net, s) && LearnedUp(net, s, mac)
  }

  ghost predicate LearnedUp(net: Net, s: Id, mac: Mac)
    requires net.root.Some? && Placed(net, s)
  {
    UplinkOf(net, s).Some? && UplinkOf(net, s).value in net.tables[s]
    && mac in net.tables[s][UplinkOf(net, s).value]
  }

  /** The downstream port a switch sees a device on, the least of them. */
  function Sees(net: Net, s: Id, d: Id): Option<Port>
    requires net.root.Some? && Placed(net, s)
  {
    var hits := set m | m in MacsOf(net, d) && DownPorts(net, s, m) != {} :: Least(DownPorts(net, s, m));
    if hits == {} then None else Some(Least(hits))
  }

  function Candidates(net: Net, d: Id): set<Id>
    requires net.root.Some?
  {
    set s | s in net.tables && Placed(net, s) && s != d && Sees(net, s, d).Some?
  }

  /** How many other candidates see this one downstream. */
  function Score(net: Net, d: Id, c: Id): nat
    requires net.root.Some?
  {
    |set o | o in Candidates(net, d) && o != c && Sees(net, o, c).Some?|
  }

  function Deepest(net: Net, d: Id): set<Id>
    requires net.root.Some?
  {
    set c | c in Candidates(net, d)
         && forall o :: o in Candidates(net, d) ==> Score(net, d, o) <= Score(net, d, c)
  }

  /** Steps 2, 3 and 6 of the module's notes: the place MAC tables give. */
  ghost function MacClaim(net: Net, d: Id): Option<Link>
    requires net.root.Some?
  {
    if d == net.root.value then Some(Link(None, None, None, Root))
    else if MacsOf(net, d) == {} then None
    else if Candidates(net, d) == {} then
      if Placed(net, d) then Some(Link(net.root, Some(d), UplinkOf(net, d), Top))
      else if exists m :: m in MacsOf(net, d) && SeenUp(net, m) then Some(Link(net.root, None, None, Uplinked))
      else None
    else if |Deepest(net, d)| == 1 then
      var s := Any(Deepest(net, d));
      Some(Link(Some(s), Some(s), Sees(net, s, d), ByMac))
    else None
  }

  ghost predicate IsMacLinks(net: Net, links: Links)
    requires net.root.Some?
  {
    forall d :: (d in links <==> (d in net.macs || d == net.root.value) && MacClaim(net, d).Some?)
             && (d in links ==> Some(links[d]) == MacClaim(net, d))
  }

  /** Step 4: the devices the tables put on one port. */
  function OnPort(links: Links, parent: Option<Id>, port: Option<Port>): set<Id> {
    set d | d in links && links[d].source == ByMac && links[d].parent == parent && links[d].port == port
  }

  /** The infrastructure on a port that nobody put below another member. */
  function FrontOf(net: Net, group: set<Id>): set<Id> {
    set d | d in group && d in net.infra
         && !(Up(net.parents, d).Some? && Up(net.parents, d).value in group)
  }

  ghost function BehindClaim(net: Net, links: Links, d: Id): Link
    requires d in links
  {
    var l := links[d];
    if l.source != ByMac then l
    else
      var group := OnPort(links, l.parent, l.port);
      var front := FrontOf(net, group);
      if |group| >= 2 && |front| == 1 && d !in front
      then Link(Some(Any(front)), l.parent, l.port, Behind)
      else l
  }

  ghost predicate IsBehindLinks(net: Net, links: Links, out: Links) {
    out.Keys == links.Keys && forall d :: d in links ==> out[d] == BehindClaim(net, links, d)
  }

  // Step 5: LLDP. Reports are taken in order of switch id.

  datatype Report = Report(switch: Id, port: Option<Port>, neighbour: Id)

  predicate HeardBelow(net: Net, r: Report)
    requires net.root.Some?
  {
    && r.neighbour != r.switch
    && (r.switch == net.root.value
        || (Placed(net, r.switch) && r.port != UplinkOf(net, r.switch) && r.neighbour != net.root.value))
  }

  predicate HeardAbove(net: Net, r: Report)
    requires net.root.Some?
  {
    && r.neighbour != r.switch && !HeardBelow(net, r)
    && (r.neighbour == net.root.value || (Placed(net, r.switch) && r.port == UplinkOf(net, r.switch)))
  }

  /** The first report that puts `d` below its switch. */
  function FirstBelow(net: Net, reports: seq<Report>, d: Id): Option<Link>
    requires net.root.Some?
  {
    if reports == [] then None
    else
      var n := |reports| - 1;
      var before := FirstBelow(net, reports[..n], d);
      if before.Some? then before
      else if HeardBelow(net, reports[n]) && reports[n].neighbour == d
      then Some(Link(Some(reports[n].switch), Some(reports[n].switch), reports[n].port, ByLldp))
      else None
  }

  /** The first report of `d` itself that hears a neighbour above it. */
  function FirstAbove(net: Net, reports: seq<Report>, d: Id): Option<Link>
    requires net.root.Some?
  {
    if reports == [] then None
    else
      var n := |reports| - 1;
      var before := FirstAbove(net, reports[..n], d);
      if before.Some? then before
      else if HeardAbove(net, reports[n]) && reports[n].switch == d
      then Some(Link(Some(reports[n].neighbour), Some(d), reports[n].port, ByLldp))
      else None
  }

  function LldpClaim(net: Net, reports: seq<Report>, d: Id): Option<Link>
    requires net.root.Some?
  {
    if d == net.root.value then None
    else
      var below := FirstBelow(net, reports, d);
      if below.Some? then below else FirstAbove(net, reports, d)
  }

  function ReportsOf(s: Id, heard: seq<Heard>): seq<Report> {
    seq(|heard|, i requires 0 <= i < |heard| => Report(s, heard[i].port, heard[i].neighbour))
  }

  function ReportsOver(net: Net, switches: set<Id>): seq<Report>
    requires switches <= net.lldp.Keys
    decreases |switches|
  {
    if switches == {} then []
    else
      var last := Greatest(switches);
      ReportsOver(net, switches - {last}) + ReportsOf(last, net.lldp[last])
  }

  /** Every LLDP row, in order of switch id. */
  function AllReports(net: Net): seq<Report> {
    ReportsOver(net, net.lldp.Keys)
  }

  // --------------------------------------------------------------- the whole inference

  /** What the reports, taken together, say about one device before loops are
      dropped. */
  ghost predicate IsClaims(net: Net, claims: Links)
    requires net.root.Some?
  {
    exists byMac, placed ::
      IsMacLinks(net, byMac) && IsBehindLinks(net, byMac, placed) && IsOverlay(net, placed, claims)
  }

  ghost predicate IsOverlay(net: Net, placed: Links, claims: Links)
    requires net.root.Some?
  {
    forall d ::
      var exact := LldpClaim(net, AllReports(net), d);
      && (d in claims <==> exact.Some? || d in placed)
      && (d in claims ==> claims[d] == if exact.Some? then exact.value else placed[d])
  }

  /** What `infer` promises. */
  ghost predicate Inferred(net: Net, out: Links) {
    match net.root
    case None => out == map[]
    case Some(_) => exists claims :: IsClaims(net, claims) && WithoutLoopsOf(claims, out)
  }

  // ----------------------------------------------------------------------- the program

  /** The uplink of one switch's table, as the program finds it: the most hits,
      then the least port that has them. */
  method FindUplink(net: Net, s: Id) returns (up: Option<Port>)
    requires net.root.Some? && s in net.tables && s != net.root.value
    ensures up.Some? <==> Placed(net, s)
    ensures up.Some? ==> up == UplinkOf(net, s)
  {
    var ports := net.tables[s];
    var counts := set p | p in ports :: Hits(net, ports, p);
    assert forall p :: p in ports ==> Hits(net, ports, p) in counts;
    var best := if counts == {} then 0 else Greatest(counts);
    if best == 0 {
      assert forall p :: p in ports ==> Hits(net, ports, p) == 0;
      assert BestPorts(net, s) == {};
      return None;
    }
    var tied := set p | p in ports && Hits(net, ports, p) == best;
    ghost var p :| p in ports && Hits(net, ports, p) == best;
    assert p in tied && p in BestPorts(net, s);
    assert tied == BestPorts(net, s);
    up := Some(Least(tied));
  }

  /** The least of the downstream ports among `done` that learned a MAC. */
  ghost predicate IsDownOver(net: Net, s: Id, done: set<Port>, mac: Mac, down: map<Mac, Port>)
    requires net.root.Some? && Placed(net, s)
  {
    && (mac in down <==> DownPorts(net, s, mac) * done != {})
    && (mac in down ==> down[mac] in DownPorts(net, s, mac) * done)
    && (mac in down ==> forall q :: q in DownPorts(net, s, mac) * done ==> down[mac] <= q)
  }

  ghost predicate IsDown(net: Net, s: Id, down: map<Mac, Port>)
    requires net.root.Some? && Placed(net, s)
  {
    forall m :: IsDownOver(net, s, net.tables[s].Keys, m, down)
  }

  /** MAC -> downstream port, ports in order and the first to learn it kept. */
  method ReadDown(net: Net, s: Id, up: Option<Port>) returns (down: map<Mac, Port>)
    requires net.root.Some? && Placed(net, s) && up == UplinkOf(net, s)
    ensures IsDown(net, s, down)
  {
    down := map[];
    var ports := net.tables[s];
    var todo := ports.Keys;
    ghost var done: set<Port> := {};
    while todo != {}
      invariant done <= ports.Keys && todo == ports.Keys - done
      invariant forall p, q :: p in done && q in todo ==> p < q
      invariant forall m :: IsDownOver(net, s, done, m, down)
      decreases |todo|
    {
      var port := Least(todo);
      todo := todo - {port};
      if Some(port) == up {
        SkippedPort(net, s, port, done, down);
      } else {
        down := LearnPort(net, s, port, done, down);
      }
      done := done + {port};
    }
    assert done == ports.Keys;
  }

  lemma {:induction false} SkippedPort(net: Net, s: Id, port: Port, done: set<Port>, down: map<Mac, Port>)
    requires net.root.Some? && Placed(net, s) && Some(port) == UplinkOf(net, s)
    requires forall m :: IsDownOver(net, s, done, m, down)
    ensures forall m :: IsDownOver(net, s, done + {port}, m, down)
  {
    forall m ensures IsDownOver(net, s, done + {port}, m, down) {
      assert IsDownOver(net, s, done, m, down);
      assert DownPorts(net, s, m) * (done + {port}) == DownPorts(net, s, m) * done;
    }
  }

  /** One port's turn: each of its MACs is kept here unless an earlier port has it. */
  method LearnPort(net: Net, s: Id, port: Port, ghost done: set<Port>, before: map<Mac, Port>)
    returns (down: map<Mac, Port>)
    requires net.root.Some? && Placed(net, s) && port in net.tables[s] && Some(port) != UplinkOf(net, s)
    requires forall p :: p in done ==> p < port
    requires forall m :: IsDownOver(net, s, done, m, before)
    ensures forall m :: IsDownOver(net, s, done + {port}, m, down)
  {
    down := before;
    var macs := net.tables[s][port];
    var todo := macs;
    while todo != {}
      invariant todo <= macs
      invariant forall m :: (m in down <==> m in before || m in macs - todo)
                         && (m in down ==> down[m] == if m in before then before[m] else port)
      decreases |todo|
    {
      var mac := Take(todo);
      todo := todo - {mac};
      if mac !in down {
        down := down[mac := port];
      }
    }
    forall m ensures IsDownOver(net, s, done + {port}, m, down) {
      LearnedPort(net, s, port, done, before, down, m);
    }
  }

  lemma {:induction false} LearnedPort(net: Net, s: Id, port: Port, done: set<Port>,
                                       before: map<Mac, Port>, down: map<Mac, Port>, m: Mac)
    requires net.root.Some? && Placed(net, s) && port in net.tables[s] && Some(port) != UplinkOf(net, s)
    requires forall p :: p in done ==> p < port
    requires IsDownOver(net, s, done, m, before)
    requires m in down <==> m in before || m in net.tables[s][port]
    requires m in down ==> down[m] == if m in before then before[m] else port
    ensures IsDownOver(net, s, done + {port}, m, down)
  {
    var ports := DownPorts(net, s, m);
    if m in net.tables[s][port] {
      assert port in ports;
      assert ports * (done + {port}) == ports * done + {port};
    } else {
      assert port !in ports;
      assert ports * (done + {port}) == ports * done;
    }
  }

  /** The program's `sees`, on what it read into `down`. */
  function SeesIn(net: Net, down: map<Id, map<Mac, Port>>, s: Id, d: Id): Option<Port>
    requires s in down
  {
    var hits := set m | m in MacsOf(net, d) && m in down[s] :: down[s][m];
    if hits == {} then None else Some(Least(hits))
  }

  ghost predicate SeesRight(net: Net, down: map<Id, map<Mac, Port>>)
    requires net.root.Some?
  {
    forall s, d :: s in down ==> Placed(net, s) && SeesIn(net, down, s, d) == Sees(net, s, d)
  }

  lemma {:induction false} SeesInIsSees(net: Net, down: map<Id, map<Mac, Port>>, s: Id, d: Id)
    requires net.root.Some? && s in down && Placed(net, s) && IsDown(net, s, down[s])
    ensures SeesIn(net, down, s, d) == Sees(net, s, d)
  {
    var read := set m | m in MacsOf(net, d) && m in down[s] :: down[s][m];
    var told := set m | m in MacsOf(net, d) && DownPorts(net, s, m) != {} :: Least(DownPorts(net, s, m));
    forall m | m in MacsOf(net, d)
      ensures m in down[s] <==> DownPorts(net, s, m) != {}
      ensures m in down[s] ==> down[s][m] == Least(DownPorts(net, s, m))
    {
      assert IsDownOver(net, s, net.tables[s].Keys, m, down[s]);
      assert DownPorts(net, s, m) * net.tables[s].Keys == DownPorts(net, s, m);
    }
    assert read == told;
  }

  /** Everything the first pass over the tables leaves behind. */
  ghost predicate TablesRead(net: Net, uplink: map<Id, Option<Port>>,
                             down: map<Id, map<Mac, Port>>, seenUp: set<Mac>)
    requires net.root.Some?
  {
    && (forall s :: s in uplink <==> Placed(net, s))
    && (forall s :: s in uplink ==> uplink[s] == UplinkOf(net, s))
    && down.Keys == uplink.Keys
    && (forall s :: s in down && Placed(net, s) ==> IsDown(net, s, down[s]))
    && (forall m :: m in seenUp <==> SeenUp(net, m))
  }

  /** One table: which way is up, if it says, and what is down. */
  method ReadTable(net: Net, s: Id) returns (known: bool, up: Option<Port>, learned: map<Mac, Port>)
    requires net.root.Some? && s in net.tables
    ensures known <==> Placed(net, s)
    ensures up == if Placed(net, s) then UplinkOf(net, s) else None
    ensures known ==> IsDown(net, s, learned)
    ensures up.Some? ==> known && up.value in net.tables[s]
  {
    known, up, learned := true, None, map[];
    if s != net.root.value {
      up := FindUplink(net, s);
      if up.None? {
        return false, None, map[];
      }
      assert up.value in BestPorts(net, s);
    }
    learned := ReadDown(net, s, up);
  }

  method ReadTables(net: Net)
    returns (uplink: map<Id, Option<Port>>, down: map<Id, map<Mac, Port>>, seenUp: set<Mac>)
    requires net.root.Some?
    ensures TablesRead(net, uplink, down, seenUp)
  {
    uplink, down, seenUp := map[], map[], {};
    var todo := net.tables.Keys;
    while todo != {}
      invariant todo <= net.tables.Keys
      invariant UplinksSoFar(net, todo, uplink)
      invariant DownsSoFar(net, todo, down)
      invariant forall m :: m in seenUp <==> SeenUpOutside(net, todo, m)
      decreases |todo|
    {
      var s := Take(todo);
      var known, up, learned := ReadTable(net, s);
      SeenUpStep(net, todo, s, up, seenUp);
      UplinkStep(net, todo, s, known, up, uplink);
      DownStep(net, todo, s, known, learned, down);
      if known {
        uplink := uplink[s := up];
        down := down[s := learned];
      }
      if up.Some? {
        seenUp := seenUp + net.tables[s][up.value];
      }
      todo := todo - {s};
    }
    AllTablesRead(net, uplink, down, seenUp);
  }

  ghost predicate UplinksSoFar(net: Net, todo: set<Id>, uplink: map<Id, Option<Port>>)
    requires net.root.Some?
  {
    forall s :: (s in uplink <==> Placed(net, s) && s !in todo) && (s in uplink ==> uplink[s] == UplinkOf(net, s))
  }

  ghost predicate DownsSoFar(net: Net, todo: set<Id>, down: map<Id, map<Mac, Port>>)
    requires net.root.Some?
  {
    forall s :: (s in down <==> Placed(net, s) && s !in todo) && (s in down ==> IsDown(net, s, down[s]))
  }

  lemma UplinkStep(net: Net, todo: set<Id>, s: Id, known: bool, up: Option<Port>, uplink: map<Id, Option<Port>>)
    requires net.root.Some? && UplinksSoFar(net, todo, uplink) && s in todo
    requires known <==> Placed(net, s)
    requires known ==> up == UplinkOf(net, s)
    ensures UplinksSoFar(net, todo - {s}, if known then uplink[s := up] else uplink)
  {
  }

  lemma DownStep(net: Net, todo: set<Id>, s: Id, known: bool, learned: map<Mac, Port>, down: map<Id, map<Mac, Port>>)
    requires net.root.Some? && DownsSoFar(net, todo, down) && s in todo
    requires known <==> Placed(net, s)
    requires known ==> IsDown(net, s, learned)
    ensures DownsSoFar(net, todo - {s}, if known then down[s := learned] else down)
  {
  }

  lemma AllTablesRead(net: Net, uplink: map<Id, Option<Port>>, down: map<Id, map<Mac, Port>>, seenUp: set<Mac>)
    requires net.root.Some? && UplinksSoFar(net, {}, uplink) && DownsSoFar(net, {}, down)
    requires forall m :: m in seenUp <==> SeenUpOutside(net, {}, m)
    ensures TablesRead(net, uplink, down, seenUp)
  {
    assert forall s :: s in down <==> s in uplink;
    forall m | SeenUp(net, m) ensures m in seenUp {
      var s :| Placed(net, s) && LearnedUp(net, s, m);
      assert SeenUpOutside(net, {}, m);
    }
  }

  /** Some switch already read learned the MAC on its uplink. */
  ghost predicate SeenUpOutside(net: Net, todo: set<Id>, mac: Mac)
    requires net.root.Some?
  {
    exists s :: s !in todo && Placed(net, s) && LearnedUp(net, s, mac)
  }

  lemma SeenUpStep(net: Net, todo: set<Id>, s: Id, up: Option<Port>, seenUp: set<Mac>)
    requires net.root.Some? && s in todo && s in net.tables
    requires up == if Placed(net, s) then UplinkOf(net, s) else None
    requires up.Some? ==> up.value in net.tables[s]
    requires forall m :: m in seenUp <==> SeenUpOutside(net, todo, m)
    ensures forall m :: m in seenUp + (if up.Some? then net.tables[s][up.value] else {})
                   <==> SeenUpOutside(net, todo - {s}, m)
  {
    forall m ensures SeenUpOutside(net, todo - {s}, m) <==>
                     SeenUpOutside(net, todo, m) || (Placed(net, s) && LearnedUp(net, s, m)) {
      if SeenUpOutside(net, todo, m) {
        var t :| t !in todo && Placed(net, t) && LearnedUp(net, t, m);
        assert t !in todo - {s};
      }
    }
  }

  lemma SingletonIsAll<T>(s: set<T>, x: T)
    requires |s| == 1 && x in s
    ensures s == {x}
  {
    SubsetSize({x}, s);
  }

  method PlaceByMacs(net: Net, uplink: map<Id, Option<Port>>, down: map<Id, map<Mac, Port>>, seenUp: set<Mac>)
    returns (links: Links)
    requires net.root.Some? && TablesRead(net, uplink, down, seenUp)
    ensures IsMacLinks(net, links)
  {
    var root := net.root.value;
    links := map[root := Link(None, None, None, Root)];
    var todo := net.macs.Keys;
    while todo != {}
      invariant todo <= net.macs.Keys
      invariant forall d :: (d in links <==> ((d in net.macs && d !in todo) || d == root) && MacClaim(net, d).Some?)
                         && (d in links ==> Some(links[d]) == MacClaim(net, d))
      decreases |todo|
    {
      var device := Least(todo);
      todo := todo - {device};
      if device == root || net.macs[device] == {} {
        continue;
      }
      var found := PlaceOne(net, uplink, down, seenUp, device);
      if found.Some? {
        links := links[device := found.value];
      }
    }
  }

  method PlaceOne(net: Net, uplink: map<Id, Option<Port>>, down: map<Id, map<Mac, Port>>, seenUp: set<Mac>,
                  device: Id)
    returns (found: Option<Link>)
    requires net.root.Some? && TablesRead(net, uplink, down, seenUp)
    requires device in net.macs && device != net.root.value && net.macs[device] != {}
    ensures found == MacClaim(net, device)
  {
    assert SeesRight(net, down) by {
      forall s, d | s in down ensures Placed(net, s) && SeesIn(net, down, s, d) == Sees(net, s, d) {
        SeesInIsSees(net, down, s, d);
      }
    }
    var candidates := set s | s in down && s != device && SeesIn(net, down, s, device).Some?;
    assert candidates == Candidates(net, device);
    if candidates == {} {
      if device in uplink {
        return Some(Link(net.root, Some(device), uplink[device], Top));
      } else if net.macs[device] * seenUp != {} {
        ghost var m := Any(net.macs[device] * seenUp);
        assert SeenUp(net, m);
        return Some(Link(net.root, None, None, Uplinked));
      }
      assert forall m :: m in net.macs[device] * seenUp <==> m in net.macs[device] && m in seenUp;
      return None;
    }
    var deepest := FindDeepest(net, down, device, candidates);
    if |deepest| == 1 {
      var switch := Take(deepest);
      SingletonIsAll(deepest, switch);
      assert Any(Deepest(net, device)) in deepest;
      return Some(Link(Some(switch), Some(switch), SeesIn(net, down, switch, device), ByMac));
    }
    found := None;
  }

  /** The candidates that are seen below by the greatest number of the others. */
  method FindDeepest(net: Net, down: map<Id, map<Mac, Port>>, device: Id, candidates: set<Id>)
    returns (deepest: set<Id>)
    requires net.root.Some? && candidates == Candidates(net, device) != {} && candidates <= down.Keys
    requires SeesRight(net, down)
    ensures deepest == Deepest(net, device)
  {
    var score := map c | c in candidates :: ScoreIn(net, down, candidates, c);
    assert Any(candidates) in score;
    var best := MaxValue(score);
    deepest := set c | c in candidates && score[c] == best;
    ScoresAre(net, down, device, candidates, score);
    MostScored(net, device, candidates, score, best, deepest);
  }

  function ScoreIn(net: Net, down: map<Id, map<Mac, Port>>, candidates: set<Id>, c: Id): int
    requires candidates <= down.Keys
  {
    |set o | o in candidates && o != c && SeesIn(net, down, o, c).Some?|
  }

  lemma ScoreInIsScore(net: Net, down: map<Id, map<Mac, Port>>, device: Id, candidates: set<Id>, c: Id)
    requires net.root.Some? && candidates == Candidates(net, device) && candidates <= down.Keys
    requires SeesRight(net, down)
    ensures ScoreIn(net, down, candidates, c) == Score(net, device, c)
  {
    assert (set o | o in candidates && o != c && SeesIn(net, down, o, c).Some?)
        == (set o | o in Candidates(net, device) && o != c && Sees(net, o, c).Some?);
  }

  /** The largest value in a table. */
  method MaxValue(score: map<Id, int>) returns (best: int)
    requires score != map[]
    ensures forall c :: c in score ==> score[c] <= best
    ensures exists c :: c in score && score[c] == best
  {
    var todo := score.Keys;
    ghost var top := Any(todo);
    var first := Take(todo);
    best, top := score[first], first;
    while todo != {}
      invariant todo <= score.Keys
      invariant top in score && score[top] == best
      invariant forall c :: c in score && c !in todo ==> score[c] <= best
      decreases |todo|
    {
      var c := Take(todo);
      todo := todo - {c};
      if score[c] > best {
        best, top := score[c], c;
      }
    }
  }

  lemma ScoresAre(net: Net, down: map<Id, map<Mac, Port>>, device: Id, candidates: set<Id>, score: map<Id, int>)
    requires net.root.Some? && candidates == Candidates(net, device) && candidates <= down.Keys
    requires SeesRight(net, down)
    requires score.Keys == candidates && forall c :: c in score ==> score[c] == ScoreIn(net, down, candidates, c)
    ensures forall c :: c in score ==> score[c] == Score(net, device, c)
  {
    forall c | c in score ensures score[c] == Score(net, device, c) {
      ScoreInIsScore(net, down, device, candidates, c);
    }
  }

  lemma {:induction false} MostScored(net: Net, device: Id, candidates: set<Id>, score: map<Id, int>,
                                      best: int, deepest: set<Id>)
    requires net.root.Some? && candidates == Candidates(net, device)
    requires score.Keys == candidates && forall c :: c in score ==> score[c] == Score(net, device, c)
    requires forall c :: c in score ==> score[c] <= best
    requires exists c :: c in score && score[c] == best
    requires forall c :: c in deepest <==> c in candidates && score[c] == best
    ensures deepest == Deepest(net, device)
  {
    var top :| top in score && score[top] == best;
    forall c | c in Deepest(net, device) ensures c in deepest {
      assert top in Candidates(net, device);
      assert Score(net, device, top) <= Score(net, device, c);
      assert c in score;
    }
    forall c | c in deepest ensures c in Deepest(net, device) {
      forall o | o in Candidates(net, device) ensures Score(net, device, o) <= Score(net, device, c) {
        assert o in score;
      }
    }
  }

  type PortKey = (Option<Id>, Option<Port>)

  function GroupSoFar(links: Links, todo: set<Id>, k: PortKey): set<Id> {
    OnPort(links, k.0, k.1) - todo
  }

  function Group(byPort: map<PortKey, set<Id>>, k: PortKey): set<Id> {
    if k in byPort then byPort[k] else {}
  }

  lemma GroupStep(links: Links, todo: set<Id>, device: Id, k: PortKey)
    requires device in todo && todo <= links.Keys
    ensures GroupSoFar(links, todo - {device}, k) ==
            GroupSoFar(links, todo, k)
            + (if links[device].source == ByMac && k == (links[device].parent, links[device].port)
               then {device} else {})
  {
  }

  /** Groups of devices the tables put on one port. */
  method GroupByPort(links: Links) returns (byPort: map<PortKey, set<Id>>)
    ensures forall k :: Group(byPort, k) == OnPort(links, k.0, k.1)
    ensures forall d :: d in links && links[d].source == ByMac ==> (links[d].parent, links[d].port) in byPort
  {
    byPort := map[];
    var todo := links.Keys;
    assert forall k: PortKey :: GroupSoFar(links, todo, k) == {};
    while todo != {}
      invariant todo <= links.Keys
      invariant forall k :: Group(byPort, k) == GroupSoFar(links, todo, k)
      decreases |todo|
    {
      var device := Take(todo);
      ghost var before := byPort;
      var l := links[device];
      if l.source == ByMac {
        var k := (l.parent, l.port);
        byPort := byPort[k := Group(byPort, k) + {device}];
      }
      forall k ensures Group(byPort, k) == GroupSoFar(links, todo - {device}, k) {
        GroupStep(links, todo, device, k);
        assert Group(before, k) == GroupSoFar(links, todo, k);
      }
      todo := todo - {device};
    }
    forall d | d in links && links[d].source == ByMac ensures (links[d].parent, links[d].port) in byPort {
      var k := (links[d].parent, links[d].port);
      assert d in GroupSoFar(links, {}, k) && d in Group(byPort, k);
    }
  }

  /** Where one switch leads a port, the port's other devices hang from it. */
  method PutBehind(net: Net, links: Links) returns (out: Links)
    ensures IsBehindLinks(net, links, out)
  {
    var byPort := GroupByPort(links);
    out := links;
    var todo := byPort.Keys;
    while todo != {}
      invariant todo <= byPort.Keys
      invariant out.Keys == links.Keys
      invariant forall d :: d in links ==>
                  out[d] == if links[d].source == ByMac && (links[d].parent, links[d].port) in todo
                            then links[d] else BehindClaim(net, links, d)
      decreases |todo|
    {
      var k := Take(todo);
      todo := todo - {k};
      var group := Group(byPort, k);
      var front := FrontOf(net, group);
      if |group| < 2 || |front| != 1 {
        continue;
      }
      var first := Take(front);
      SingletonIsAll(front, first);
      assert Any(front) == first;
      out := out + (map d | d in group && d != first :: Link(Some(first), k.0, k.1, Behind));
    }
  }

  lemma {:induction false} ReportsOverNext(net: Net, done: set<Id>, s: Id)
    requires done <= net.lldp.Keys && s in net.lldp && s !in done
    requires forall x :: x in done ==> x < s
    ensures ReportsOver(net, done + {s}) == ReportsOver(net, done) + ReportsOf(s, net.lldp[s])
  {
    assert Greatest(done + {s}) == s;
    assert done + {s} - {s} == done;
  }

  /** The first entry for `d` in a list of (device, link). */
  function FirstFor(entries: seq<(Id, Link)>, d: Id): Option<Link> {
    if entries == [] then None
    else
      var n := |entries| - 1;
      var before := FirstFor(entries[..n], d);
      if before.Some? then before
      else if entries[n].0 == d then Some(entries[n].1) else None
  }

  ghost predicate LldpRead(net: Net, reports: seq<Report>, byLldp: Links, upward: seq<(Id, Link)>)
    requires net.root.Some?
  {
    && (forall d :: (d in byLldp <==> FirstBelow(net, reports, d).Some?)
                 && (d in byLldp ==> Some(byLldp[d]) == FirstBelow(net, reports, d)))
    && (forall d :: FirstFor(upward, d) == FirstAbove(net, reports, d))
  }

  /** One LLDP row's turn. */
  method HearOne(net: Net, uplink: map<Id, Option<Port>>, ghost reports: seq<Report>, r: Report,
                 byLldp: Links, upward: seq<(Id, Link)>)
    returns (byLldp': Links, upward': seq<(Id, Link)>)
    requires net.root.Some? && LldpRead(net, reports, byLldp, upward)
    requires forall s :: s in uplink <==> Placed(net, s)
    requires forall s :: s in uplink ==> uplink[s] == UplinkOf(net, s)
    ensures LldpRead(net, reports + [r], byLldp', upward')
  {
    byLldp', upward' := byLldp, upward;
    assert (reports + [r])[..|reports|] == reports;
    var root := net.root.value;
    var s, port, neighbour := r.switch, r.port, r.neighbour;
    if neighbour == s {
      return;
    }
    if s == root || (s in uplink && port != uplink[s] && neighbour != root) {
      if neighbour !in byLldp' {
        byLldp' := byLldp'[neighbour := Link(Some(s), Some(s), port, ByLldp)];
      }
    } else if neighbour == root || (s in uplink && port == uplink[s]) {
      upward' := upward' + [(s, Link(Some(neighbour), Some(s), port, ByLldp))];
      assert upward'[..|upward|] == upward;
    }
  }

  /** One device's LLDP rows, in order. */
  method HearAll(net: Net, uplink: map<Id, Option<Port>>, ghost before: seq<Report>, s: Id, heard: seq<Heard>,
                 byLldp: Links, upward: seq<(Id, Link)>)
    returns (byLldp': Links, upward': seq<(Id, Link)>)
    requires net.root.Some? && LldpRead(net, before, byLldp, upward)
    requires forall s :: s in uplink <==> Placed(net, s)
    requires forall s :: s in uplink ==> uplink[s] == UplinkOf(net, s)
    ensures LldpRead(net, before + ReportsOf(s, heard), byLldp', upward')
  {
    byLldp', upward' := byLldp, upward;
    ghost var mine := ReportsOf(s, heard);
    assert before + mine[..0] == before;
    for i := 0 to |heard|
      invariant LldpRead(net, before + mine[..i], byLldp', upward')
    {
      var r := Report(s, heard[i].port, heard[i].neighbour);
      assert before + mine[..i + 1] == before + mine[..i] + [r];
      byLldp', upward' := HearOne(net, uplink, before + mine[..i], r, byLldp', upward');
    }
    assert mine[..|heard|] == mine;
  }

  method ReadLldp(net: Net, uplink: map<Id, Option<Port>>) returns (byLldp: Links, upward: seq<(Id, Link)>)
    requires net.root.Some?
    requires forall s :: s in uplink <==> Placed(net, s)
    requires forall s :: s in uplink ==> uplink[s] == UplinkOf(net, s)
    ensures LldpRead(net, AllReports(net), byLldp, upward)
  {
    byLldp, upward := map[], [];
    var todo := net.lldp.Keys;
    ghost var done: set<Id> := {};
    while todo != {}
      invariant done <= net.lldp.Keys && todo == net.lldp.Keys - done
      invariant forall x, y :: x in done && y in todo ==> x < y
      invariant LldpRead(net, ReportsOver(net, done), byLldp, upward)
      decreases |todo|
    {
      var s := Least(todo);
      todo := todo - {s};
      ReportsOverNext(net, done, s);
      var heard := net.lldp[s];
      byLldp, upward := HearAll(net, uplink, ReportsOver(net, done), s, heard, byLldp, upward);
      done := done + {s};
    }
    assert done == net.lldp.Keys;
  }

  /** What neighbours say overrides the tables: first a neighbour heard on a port
      that leads down, then a device's own word on its uplink; never the gateway. */
  method ApplyLldp(net: Net, uplink: map<Id, Option<Port>>, placed: Links) returns (out: Links)
    requires net.root.Some?
    requires forall s :: s in uplink <==> Placed(net, s)
    requires forall s :: s in uplink ==> uplink[s] == UplinkOf(net, s)
    ensures IsOverlay(net, placed, out)
  {
    var byLldp, upward := ReadLldp(net, uplink);
    ghost var below := byLldp;
    for i := 0 to |upward|
      invariant forall d :: (d in byLldp <==> d in below || FirstFor(upward[..i], d).Some?)
                         && (d in byLldp ==>
                               byLldp[d] == if d in below then below[d] else FirstFor(upward[..i], d).value)
    {
      assert upward[..i + 1][..i] == upward[..i];
      var (s, l) := upward[i];
      if s !in byLldp {
        byLldp := byLldp[s := l];
      }
    }
    assert upward[..|upward|] == upward;
    byLldp := byLldp - {net.root.value};
    out := placed + byLldp;
  }

  /** The whole inference, loop after loop. */
  method Infer(net: Net) returns (out: Links)
    ensures Inferred(net, out)
  {
    if net.root.None? {
      return map[];
    }
    var uplink, down, seenUp := ReadTables(net);
    var links := PlaceByMacs(net, uplink, down, seenUp);
    var placed := PutBehind(net, links);
    var claims := ApplyLldp(net, uplink, placed);
    assert IsClaims(net, claims);
    out := WithoutLoops(claims);
  }

  /** Whatever the tables say, the gateway ends at the top, and nothing inferred
      loops. */
  lemma {:induction false} GatewayIsTheTop(net: Net, out: Links)
    requires net.root.Some? && Inferred(net, out)
    ensures net.root.value in out && out[net.root.value].parent == None
    ensures Acyclic(ParentsOf(out))
  {
    var claims: Links :| IsClaims(net, claims) && WithoutLoopsOf(claims, out);
    WithoutLoopsIsForest(claims, out);
    var root := net.root.value;
    var byMac: Links, placed: Links :|
      IsMacLinks(net, byMac) && IsBehindLinks(net, byMac, placed) && IsOverlay(net, placed, claims);
    assert root in byMac && Some(byMac[root]) == MacClaim(net, root);
    assert root in placed && placed[root] == BehindClaim(net, byMac, root);
    assert LldpClaim(net, AllReports(net), root) == None;
    assert root in claims && claims[root].parent == None;
    assert Climb(ParentsOf(claims), root, 1) == None;
  }
}
