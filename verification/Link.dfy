/** A link with any number of routers. The network may lose, duplicate, delay and reorder packets:
    whatever was ever sent may arrive at any time, any number of times, or never. */
module Link {
  import opened Types
  import opened Metrics
  import opened ReliableSpec
  import opened NeighborSpec
  import R = ReliableRuns

  /** A router's side of the link: its interface, what it holds about each neighbour, the trees it
      currently announces on the link, and the clock at which the interface came up. */
  datatype Router = Router(iface: Iface, nbs: map<Ip, Nb>, table: map<Tree, Metric>, born: nat)

  /** An adjacency is named by the router and the stamp of the snapshot that router took for it. */
  datatype AdjId = AdjId(router: Ip, stamp: Stamp)

  /** What the history remembers of a snapshot: whom it was taken for, the BootTime that neighbour
      was known by, and the trees in the order and in the size of fragment they are sent. */
  datatype Snap = Snap(peer: Ip, peerBoot: nat, listing: seq<Entry>, fragmentation: nat)

  /** The routers, everything ever sent, and two histories kept for the proof only: the snapshots
      ever taken, and per adjacency the last number delivered for each tree. */
  datatype Link = Link(routers: map<Ip, Router>,
                       sent: set<Packet>,
                       snaps: map<AdjId, Snap>,
                       got: map<AdjId, map<Tree, nat>>)

  datatype Action =
    | Deliver(at: Ip, packet: Packet, env: Env)
    | SyncTimer(at: Ip, peer: Ip)
    | Announce(at: Ip, tree: Tree, metric: Option<Metric>, clock: nat)
    | Signal(at: Ip, tree: Tree, interested: bool, to: Ip, clock: nat)
    | RetransmissionTimer(at: Ip, tree: Tree)
    | SayHello(at: Ip, checkpoint: nat)
    | LoseNeighbor(at: Ip, peer: Ip)
    | ForgetInterest(at: Ip, tree: Tree)
    | Restart(at: Ip, clock: nat, table: map<Tree, Metric>)

  function Lookup(trees: seq<Entry>, t: Tree): Option<Metric>
    decreases |trees|
  {
    if trees == [] then None
    else
      var last := trees[|trees| - 1];
      if last.tree == t then Some(last.metric) else Lookup(trees[..|trees| - 1], t)
  }

  ghost predicate Lists(trees: seq<Entry>, table: map<Tree, Metric>) {
    forall t :: Lookup(trees, t) == Get(table, t)
  }

  predicate EnvOk(r: Router, env: Env) {
    env.fragmentation >= 1 && env.clock > r.iface.bootTime
  }

  predicate Reaches(p: Packet, at: Ip) {
    && p.src != at
    && match p
       case Sync(_, dst, _, _, _, _, _, _, _, _) => dst == at
       case Hello(_, _, _) => true
       case Reliable(_, to, _) => to == None || to == Some(at)
       case Ack(_, dst, _, _, _, _, _, _) => dst == at
  }

  /** The part of an interface's packet handlers before the record of the neighbour is consulted:
      a Sync for another BootTime is dropped, an unknown sender gets a record. */
  predicate Dropped(r: Router, p: Packet) {
    p.Sync? && p.neighborBootTime != r.iface.bootTime
  }

  function Handle(r: Router, at: Ip, p: Packet, env: Env): Outcome {
    if p.src in r.nbs then
      End(at, p.src, r.iface, r.nbs[p.src]).Receive(p, env)
    else
      var e := End(at, p.src, r.iface.(neighbors := r.iface.neighbors + {p.src}),
                   NewNb(if p.Reliable? then p.msg.stamp.bootTime else p.bootTime, r.iface.bootTime));
      if p.Sync? then e.ReceiveSync(p, env) else e.Reset(e.nb.timeOfBoot, env)
  }

  function Put(r: Router, o: Outcome): Router {
    r.(iface := o.end.iface, nbs := r.nbs[o.end.peer := o.end.nb])
  }

  function Adjacency(at: Ip, nb: Nb): AdjId {
    AdjId(at, Stamp(nb.myBootTime, nb.mySn))
  }

  function Adopted(peer: Ip, nb: Nb): AdjId {
    AdjId(peer, Stamp(nb.timeOfBoot, nb.neighborSn))
  }

  function ToSet(ps: seq<Packet>): set<Packet> {
    set p | p in ps
  }

  function Note(got: map<AdjId, map<Tree, nat>>, a: AdjId, m: Msg): map<AdjId, map<Tree, nat>> {
    var delivered: map<Tree, nat> := GetOr(got, a, map[]);
    got[a := delivered[m.tree := m.stamp.sn]]
  }

  function AfterDeliver(l: Link, at: Ip, p: Packet, env: Env): Link
    requires at in l.routers
  {
    var r := l.routers[at];
    if Dropped(r, p) then l
    else
      var o := Handle(r, at, p, env);
      var a := Adjacency(at, o.end.nb);
      var snaps := if a in l.snaps then l.snaps
                   else l.snaps[a := Snap(p.src, o.end.nb.timeOfBoot, env.listing, env.fragmentation)];
      var got := if a in l.got then l.got else l.got[a := map[]];
      Link(l.routers[at := Put(r, o)], l.sent + ToSet(o.out), snaps,
           if o.delivered && p.Reliable? then Note(got, a, p.msg) else got)
  }

  function AfterAnnounce(r: Router, at: Ip, t: Tree, metric: Option<Metric>, clock: nat): (Router, Packet) {
    var kind := match metric case Some(m) => IamUpstream(m) case None => IamNoLongerUpstream;
    var i := r.iface.SendMulticast(t, kind, clock);
    (r.(iface := i, table := match metric case Some(m) => r.table[t := m] case None => r.table - {t}),
     Reliable(at, None, Msg(i.Now(), t, kind)))
  }

  function AfterSignal(r: Router, at: Ip, t: Tree, interested: bool, to: Ip, clock: nat): (Router, Packet) {
    var kind := if interested then Interest else NoInterest;
    var i := r.iface.SendUnicast(t, kind, to, clock);
    (r.(iface := i), Reliable(at, Some(to), Msg(i.Now(), t, kind)))
  }

  function Keep(r: Router, iface: Iface): Router {
    r.(iface := iface, nbs := map n | n in r.nbs && n in iface.neighbors :: r.nbs[n])
  }

  function Next(l: Link, a: Action): Link
    requires a.at in l.routers
  {
    var r := l.routers[a.at];
    match a
    case Deliver(at, p, env) => AfterDeliver(l, at, p, env)
    case SyncTimer(at, peer) =>
      if peer in r.nbs then l.(sent := l.sent + ToSet(End(at, peer, r.iface, r.nbs[peer]).SyncTimeout().out)) else l
    case Announce(at, t, metric, clock) =>
      var (q, p) := AfterAnnounce(r, at, t, metric, clock);
      l.(routers := l.routers[at := q], sent := l.sent + {p})
    case Signal(at, t, interested, to, clock) =>
      var (q, p) := AfterSignal(r, at, t, interested, to, clock);
      l.(routers := l.routers[at := q], sent := l.sent + {p})
    case RetransmissionTimer(at, t) =>
      l.(routers := l.routers[at := Keep(r, r.iface.Expire(t))])
    case SayHello(at, c) => l.(sent := l.sent + {Hello(at, r.iface.bootTime, c)})
    case LoseNeighbor(at, peer) =>
      l.(routers := l.routers[at := Keep(r, r.iface.(neighbors := r.iface.neighbors - {peer}))])
    case ForgetInterest(at, t) =>
      l.(routers := l.routers[at := r.(nbs := map n | n in r.nbs :: r.nbs[n].(interest := r.nbs[n].interest - {t}))])
    case Restart(at, clock, table) =>
      l.(routers := l.routers[at := Router(Iface(clock, 0, {}, map[]), map[], table, clock)])
  }

  /** What the environment owes: clocks move forward. Nothing is asked of what snapshots list, nor of
      the trees about which interest is told; what depends on these is in LinkTable. */
  ghost predicate Enabled(l: Link, a: Action) {
    && a.at in l.routers
    && var r := l.routers[a.at];
       match a
       case Deliver(at, p, env) => p in l.sent && Reaches(p, at) && EnvOk(r, env)
       case Announce(at, t, metric, clock) => clock > r.iface.bootTime
       case Signal(at, t, interested, to, clock) => clock > r.iface.bootTime && to != at
       case SayHello(at, c) => R.Settled(r.iface, c)
       case Restart(at, clock, table) => clock > r.iface.bootTime
       case _ => true
  }

  ghost predicate Init(l: Link) {
    && l.sent == {} && l.snaps == map[] && l.got == map[]
    && forall n :: n in l.routers ==>
         var r := l.routers[n];
         r.iface == Iface(r.born, 0, {}, map[]) && r.nbs == map[]
  }

  ghost predicate Run(ls: seq<Link>, actions: seq<Action>) {
    && |ls| == |actions| + 1
    && Init(ls[0])
    && forall k :: 0 <= k < |actions| ==> Enabled(ls[k], actions[k]) && ls[k + 1] == Next(ls[k], actions[k])
  }
}
