/** Many routers and one tree: what follows for the whole network once every router stores what its
    neighbours announce. */
module Network {
  import opened Types
  import opened Metrics
  import opened TreeSpec
  import opened TreeEntry

  type Router = nat

  datatype Port = Port(router: Router, vif: Vif)

  /** An originator is directly connected to the source; of it, only its state, which depends on
      whether it hears the source, and its interfaces matter here. */
  datatype Node =
    | Originator(state: TreeState, links: Links, rpc: Metric, ifs: map<Vif, TreeIf>)
    | NonOriginator(entry: Entry)
  {
    function Ifs(): map<Vif, TreeIf> {
      if Originator? then ifs else entry.ifs
    }

    function Links(): Links {
      if Originator? then links else entry.links
    }

    function Rpc(): Metric {
      if Originator? then rpc else entry.rpc
    }

    function State(): TreeState {
      if Originator? then state else entry.state
    }

    predicate Active() {
      State().Active?
    }

    /** What the neighbours on link `i` have been told. */
    function Says(i: Vif): Option<Metric> {
      if NonOriginator? then Announced(entry.log, i)
      else if i in ifs then Sync(ifs[i], links.Connected(i))
      else None
    }

    /** What holds between two handlers, in a tree that is not about to be removed. */
    ghost predicate Ok() {
      && !State().Inactive?
      && if NonOriginator? then entry.Valid()
         else forall i :: i in ifs && ifs[i].NonRoot? ==>
             var x := ifs[i];
             && (x.cur == state || links.Connected(i)) && x.rpc == rpc
             && x.winner == Wins(x.cur, x.best, AssertMetric(x.rpc, links.Address(i))) && (x.winner ==> !x.onHold)
    }
  }

  /** The routers of the network, and the link each interface is on. */
  datatype Net = Net(nodes: map<Router, Node>, link: map<Port, nat>) {

    predicate Has(p: Port) {
      p.router in nodes && p.vif in nodes[p.router].Ifs() && p in link
    }

    function If(p: Port): TreeIf
      requires Has(p)
    {
      nodes[p.router].Ifs()[p.vif]
    }

    function Address(p: Port): Ip
      requires Has(p)
    {
      nodes[p.router].Links().Address(p.vif)
    }

    predicate Announces(p: Port) {
      Has(p) && nodes[p.router].Says(p.vif).Some?
    }

    function Claim(p: Port): AssertMetric
      requires Announces(p)
    {
      AssertMetric(nodes[p.router].Says(p.vif).value, Address(p))
    }

    /** `q` is another router's interface on the link of `p`, and announces something there. */
    predicate Rival(p: Port, q: Port) {
      Has(p) && Announces(q) && link[p] == link[q] && q.router != p.router
    }

    /** The best upstream neighbour stored at `p` is the best of all that announce on its link. */
    ghost predicate Stores(p: Port)
      requires Has(p)
    {
      match If(p).best
      case None => forall q :: !Rival(p, q)
      case Some(b) =>
        && (exists q :: Rival(p, q) && Claim(q) == b.claim)
        && (forall q :: Rival(p, q) ==> !Claim(q).IsBetterThan(b.claim))
    }

    ghost predicate Converged() {
      && (forall n :: n in nodes ==> nodes[n].Ok() && forall i :: i in nodes[n].Ifs() ==> Port(n, i) in link)
      && (forall p :: Has(p) ==> Stores(p))
      && (forall p, q :: Has(p) && Has(q) && link[p] == link[q] && p != q ==> Address(p) != Address(q) && p.router != q.router)
    }

    /** `m` is the best upstream neighbour of `n`. */
    ghost predicate Upstream(n: Router, m: Router) {
      && n in nodes && m in nodes && nodes[n].NonOriginator? && nodes[n].entry.inbound.Some?
      && var p := Port(n, nodes[n].entry.inbound.value);
         Has(p) && If(p).best.Some? && exists j :: Rival(p, Port(m, j)) && Claim(Port(m, j)) == If(p).best.value.claim
    }
  }

  // ----- No loops -----

  /** What a router announces it announces as an Active router, with its own route metric. */
  lemma AnnouncerIsActive(net: Net, p: Port)
    requires net.Converged() && net.Announces(p)
    ensures net.nodes[p.router].Active() && net.nodes[p.router].Says(p.vif) == Some(net.nodes[p.router].Rpc())
    ensures net.If(p).NonRoot? && !net.nodes[p.router].Links().Connected(p.vif) && net.If(p).cur.Active?
    ensures net.If(p).rpc == net.nodes[p.router].Rpc()
  {
    var node := net.nodes[p.router];
    assert node.Ok();
    if node.NonOriginator? {
      assert node.entry.IfOk(p.vif);
    }
  }

  lemma UpstreamIsNearer(net: Net, n: Router, m: Router)
    requires net.Converged() && net.Upstream(n, m) && net.nodes[n].Active()
    ensures net.nodes[m].Active() && Lower(net.nodes[m].Rpc(), net.nodes[n].Rpc())
  {
    var e := net.nodes[n].entry;
    assert net.nodes[n].Ok() && e.IfOk(e.inbound.value);
    var p := Port(n, e.inbound.value);
    var j :| net.Rival(p, Port(m, j)) && net.Claim(Port(m, j)) == net.If(p).best.value.claim;
    AnnouncerIsActive(net, Port(m, j));
  }

  /** An Active router that is no originator has a best upstream neighbour. */
  lemma HasUpstream(net: Net, n: Router) returns (m: Router)
    requires net.Converged() && n in net.nodes && net.nodes[n].NonOriginator? && net.nodes[n].Active()
    ensures net.Upstream(n, m)
  {
    var e := net.nodes[n].entry;
    var p := Port(n, e.inbound.value);
    assert net.nodes[n].Ok() && e.IfOk(e.inbound.value);
    assert net.Has(p) && net.Stores(p);
    var q :| net.Rival(p, q) && net.Claim(q) == net.If(p).best.value.claim;
    m := q.router;
    assert q == Port(m, q.vif);
  }

  /** Each router on the way is the best upstream neighbour of the one before. */
  ghost predicate Way(net: Net, path: seq<Router>) {
    |path| > 0 && path[0] in net.nodes && forall k :: 0 <= k < |path| - 1 ==> net.Upstream(path[k], path[k + 1])
  }

  /** Lower in the pair of preference and cost. */
  predicate Lower(a: Metric, b: Metric) {
    a.preference < b.preference || (a.preference == b.preference && a.cost < b.cost)
  }

  /** Along the way the pair of preference and cost decreases, the preference first. */
  lemma {:induction false} WayGetsNearer(net: Net, path: seq<Router>, j: nat, k: nat)
    requires net.Converged() && Way(net, path) && net.nodes[path[0]].Active() && j <= k < |path|
    ensures path[j] in net.nodes && path[k] in net.nodes && net.nodes[path[j]].Active() && net.nodes[path[k]].Active()
    ensures j < k ==> Lower(net.nodes[path[k]].Rpc(), net.nodes[path[j]].Rpc())
    decreases k
  {
    if k > 0 {
      WayGetsNearer(net, path, if j < k then j else k - 1, k - 1);
      UpstreamIsNearer(net, path[k - 1], path[k]);
    }
  }

  /** Following best upstream neighbours from an Active router never comes back to a router. */
  lemma NoLoops(net: Net, path: seq<Router>, j: nat, k: nat)
    requires net.Converged() && Way(net, path) && net.nodes[path[0]].Active() && j < k < |path|
    ensures path[j] != path[k]
  {
    WayGetsNearer(net, path, j, k);
  }

  /** It ends, and at an originator. */
  lemma {:induction false} EveryWayEndsAtAnOriginator(net: Net, n: Router) returns (path: seq<Router>)
    requires net.Converged() && n in net.nodes && net.nodes[n].Active()
    ensures Way(net, path) && path[0] == n
    ensures var last := path[|path| - 1]; last in net.nodes && net.nodes[last].Originator? && net.nodes[last].Active()
    decreases net.nodes[n].Rpc().preference, net.nodes[n].Rpc().cost
  {
    if net.nodes[n].Originator? {
      path := [n];
    } else {
      var m := HasUpstream(net, n);
      UpstreamIsNearer(net, n, m);
      var rest := EveryWayEndsAtAnOriginator(net, m);
      path := [n] + rest;
      LongerWay(net, n, rest);
    }
  }

  lemma LongerWay(net: Net, n: Router, rest: seq<Router>)
    requires n in net.nodes && Way(net, rest) && net.Upstream(n, rest[0])
    ensures Way(net, [n] + rest)
  {
    var path := [n] + rest;
    forall k | 0 <= k < |path| - 1 ensures net.Upstream(path[k], path[k + 1]) {
      if k > 0 {
        assert net.Upstream(rest[k - 1], rest[k]);
      }
    }
  }

  /** A tree does not keep itself alive: without an Active originator no router is Active. */
  lemma NoOriginatorNoTree(net: Net, n: Router)
    requires net.Converged() && n in net.nodes
    requires forall m :: m in net.nodes && net.nodes[m].Originator? ==> !net.nodes[m].Active()
    ensures !net.nodes[n].Active()
  {
    if net.nodes[n].Active() {
      var path := EveryWayEndsAtAnOriginator(net, n);
    }
  }

  // ----- One winner on each link -----

  ghost predicate OnLink(net: Net, link: nat, p: Port) {
    net.Has(p) && net.link[p] == link
  }

  /** The announcement on the link that no other announcement there beats. */
  ghost predicate Best(net: Net, link: nat, w: Port) {
    && OnLink(net, link, w) && net.Announces(w)
    && forall q :: OnLink(net, link, q) && net.Announces(q) && q != w ==> net.Claim(w).IsBetterThan(net.Claim(q))
  }

  /** Different routers never tie. */
  lemma ClaimsDiffer(net: Net, p: Port, q: Port)
    requires net.Converged() && net.Announces(p) && net.Announces(q) && net.link[p] == net.link[q] && p != q
    ensures net.Claim(p).IsBetterThan(net.Claim(q)) != net.Claim(q).IsBetterThan(net.Claim(p))
  {
    AssertOrderIsTotal(net.Claim(p), net.Claim(q));
  }

  function Announcers(net: Net, link: nat): set<Port> {
    set p | p in net.link && net.link[p] == link && net.Announces(p)
  }

  lemma {:induction false} BestOf(net: Net, link: nat, ports: set<Port>) returns (w: Port)
    requires net.Converged() && ports != {} && ports <= Announcers(net, link)
    ensures w in ports && Beats(net, w, ports)
    decreases ports
  {
    var p :| p in ports;
    var rest := ports - {p};
    assert ports == rest + {p};
    if rest == {} {
      w := p;
    } else {
      var v := BestOf(net, link, rest);
      ClaimsDiffer(net, p, v);
      w := if net.Claim(v).IsBetterThan(net.Claim(p)) then v else p;
      OneMore(net, p, v, rest, w);
    }
  }

  ghost predicate Beats(net: Net, w: Port, ports: set<Port>) {
    net.Announces(w) && forall q :: q in ports && q != w ==> net.Announces(q) && net.Claim(w).IsBetterThan(net.Claim(q))
  }

  lemma OneMore(net: Net, p: Port, v: Port, rest: set<Port>, w: Port)
    requires Beats(net, v, rest) && v in rest && net.Announces(p)
    requires if net.Claim(v).IsBetterThan(net.Claim(p)) then w == v else w == p && net.Claim(p).IsBetterThan(net.Claim(v))
    ensures Beats(net, w, rest + {p})
  {
    forall q | q in rest + {p} && q != w ensures net.Announces(q) && net.Claim(w).IsBetterThan(net.Claim(q)) {
      if w == p && q != v {
        AssertOrderIsTransitive(net.Claim(p), net.Claim(v), net.Claim(q));
      }
    }
  }

  lemma BestExists(net: Net, link: nat, a: Port) returns (w: Port)
    requires net.Converged() && OnLink(net, link, a) && net.Announces(a)
    ensures Best(net, link, w)
  {
    assert a in Announcers(net, link);
    w := BestOf(net, link, Announcers(net, link));
    forall q | OnLink(net, link, q) && net.Announces(q) && q != w ensures net.Claim(w).IsBetterThan(net.Claim(q)) {
      assert q in Announcers(net, link);
    }
  }

  /** Whether the source is on a link is the same for everybody on it. */
  ghost predicate SameSubnet(net: Net, link: nat) {
    forall p, q :: OnLink(net, link, p) && OnLink(net, link, q) ==>
      net.nodes[p.router].Links().Connected(p.vif) == net.nodes[q.router].Links().Connected(q.vif)
  }

  /** The best announcement comes from an AssertWinner. */
  lemma BestWins(net: Net, link: nat, w: Port)
    requires net.Converged() && Best(net, link, w)
    ensures net.If(w).NonRoot? && net.If(w).winner
  {
    AnnouncerIsActive(net, w);
    assert net.nodes[w.router].Ok() && net.Stores(w);
    if net.nodes[w.router].NonOriginator? {
      assert net.nodes[w.router].entry.IfOk(w.vif);
    }
    var best := net.If(w).best;
    if best.Some? {
      var q :| net.Rival(w, q) && net.Claim(q) == best.value.claim;
      assert OnLink(net, link, q);
    }
  }

  /** Nobody else on the link is one. */
  lemma OthersLose(net: Net, link: nat, w: Port, p: Port)
    requires net.Converged() && SameSubnet(net, link) && Best(net, link, w) && OnLink(net, link, p) && p != w
    requires net.If(p).NonRoot?
    ensures !net.If(p).winner
  {
    AnnouncerIsActive(net, w);
    assert net.nodes[p.router].Ok() && net.Stores(p) && net.Rival(p, w);
    if net.nodes[p.router].NonOriginator? {
      assert net.nodes[p.router].entry.IfOk(p.vif);
    }
    var best := net.If(p).best;
    var q :| net.Rival(p, q) && net.Claim(q) == best.value.claim;
    assert OnLink(net, link, q);
    assert q == w;
    if net.If(p).cur.Active? {
      assert net.Announces(p);
      AssertOrderIsTotal(net.Claim(w), net.Claim(p));
    }
  }

  ghost predicate Winner(net: Net, link: nat, p: Port) {
    OnLink(net, link, p) && net.If(p).NonRoot? && net.If(p).winner
  }

  /** Lower in preference, then in cost; of equal metrics, from the higher address. */
  predicate Prevails(a: Metric, ip: Ip, b: Metric, other: Ip) {
    Lower(a, b) || (a == b && ip > other)
  }

  /** As soon as somebody announces the tree on a link exactly one router is AssertWinner there: the
      one whose announcement has the lowest preference, then the lowest cost, then the highest
      address, in whatever order anybody looked at them. */
  lemma ExactlyOneWinner(net: Net, link: nat, a: Port) returns (w: Port)
    requires net.Converged() && SameSubnet(net, link) && OnLink(net, link, a) && net.Announces(a)
    ensures Best(net, link, w)
    ensures forall p :: Winner(net, link, p) <==> p == w
    ensures forall q :: OnLink(net, link, q) && net.Announces(q) && q != w ==>
              Prevails(net.Claim(w).metric, net.Address(w), net.Claim(q).metric, net.Address(q))
  {
    w := BestExists(net, link, a);
    BestWins(net, link, w);
    forall p | OnLink(net, link, p) && net.If(p).NonRoot? && p != w ensures !net.If(p).winner {
      OthersLose(net, link, w, p);
    }
  }

  /** Once nobody holds its forwarding state any more nobody else forwards to the link. */
  lemma OnlyTheWinnerForwards(net: Net, link: nat, a: Port, p: Port) returns (w: Port)
    requires net.Converged() && SameSubnet(net, link) && OnLink(net, link, a) && net.Announces(a)
    requires OnLink(net, link, p) && (net.If(p).NonRoot? ==> !net.If(p).onHold)
    ensures Winner(net, link, w)
    ensures net.nodes[p.router].Links().Forward(p.vif, net.If(p)) ==> p == w
  {
    w := ExactlyOneWinner(net, link, a);
    assert Winner(net, link, p) <==> p == w;
  }
}
