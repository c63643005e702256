/** What every reachable state of a link keeps. */
module LinkInv {
  import opened Types
  import opened Metrics
  import opened ReliableSpec
  import R = ReliableRuns
  import opened NeighborSpec
  import opened Link

  /** `peer` said `m` to `at`, alone or together with everybody. */
  predicate Said(sent: set<Packet>, peer: Ip, at: Ip, m: Msg) {
    Reliable(peer, None, m) in sent || Reliable(peer, Some(at), m) in sent
  }

  predicate Relevant(p: Packet, n: Ip) {
    p.Reliable? && (p.to == None || p.to == Some(n))
  }

  // ----- Stamps -----

  ghost predicate StampsOk(l: Link) {
    && l.got.Keys == l.snaps.Keys
    && (forall p :: p in l.sent && p.Reliable? ==> SentOk(l, p))
    && (forall a :: a in l.snaps ==> TakenOk(l, a))
    && (forall p, q {:trigger SameStamp(p, q)} :: p in l.sent && q in l.sent && SameStamp(p, q) ==> p == q)
    && (forall a, p {:trigger Stamped(p, a)} :: a in l.snaps && p in l.sent ==> !Stamped(p, a))
  }

  predicate SentOk(l: Link, p: Packet)
    requires p.Reliable?
  {
    && p.src in l.routers && 1 <= p.msg.stamp.sn
    && AtMost(p.msg.stamp, l.routers[p.src].iface.Now())
    && (p.to == None <==> p.msg.kind.IamUpstream? || p.msg.kind.IamNoLongerUpstream?)
  }

  predicate TakenOk(l: Link, a: AdjId) {
    && a.router in l.routers && 1 <= a.stamp.sn
    && AtMost(a.stamp, l.routers[a.router].iface.Now())
  }

  predicate SameStamp(p: Packet, q: Packet) {
    p.Reliable? && q.Reliable? && p.src == q.src && p.msg.stamp == q.msg.stamp
  }

  predicate Stamped(p: Packet, a: AdjId) {
    p.Reliable? && p.src == a.router && p.msg.stamp == a.stamp
  }

  // ----- Sync packets carry the fragment their numbers name -----

  ghost predicate SyncsOk(l: Link) {
    forall p :: p in l.sent && p.Sync? ==> SyncOk(l.snaps, p)
  }

  predicate SyncOk(snaps: map<AdjId, Snap>, p: Packet)
    requires p.Sync?
  {
    var a := AdjId(p.src, Stamp(p.bootTime, p.mySn));
    && a in snaps && snaps[a].peer == p.dst && snaps[a].peerBoot == p.neighborBootTime
    && p.trees == Fragment(snaps[a].listing, snaps[a].fragmentation, p.syncSn)
    && p.more == More(snaps[a].listing, snaps[a].fragmentation, p.syncSn)
  }

  // ----- What a router holds about a neighbour -----

  /** The stored state of a tree is what a message of this kind leaves; interest may be forgotten. */
  predicate Holds(nb: Nb, t: Tree, kind: Kind) {
    match kind
    case IamUpstream(m) => Get(nb.upstream, t) == Some(m) && t !in nb.interest
    case IamNoLongerUpstream => t !in nb.upstream && t !in nb.interest
    case Interest => t !in nb.upstream && (t in nb.interest ==> nb.interest[t])
    case NoInterest => t !in nb.upstream && (t in nb.interest ==> !nb.interest[t])
  }

  function Installed(s: Snap, k: nat): seq<Entry> {
    s.listing[..Upto(|s.listing|, s.fragmentation, k)]
  }

  /** Every tree is stored as the last delivered message about it says, and without one as the
      first `k` fragments of the adopted snapshot say. */
  ghost predicate Replays(sent: set<Packet>, at: Ip, peer: Ip, nb: Nb, k: nat, s: Snap, got: map<Tree, nat>) {
    forall t ::
      if t in got then
        && got[t] > nb.neighborSn
        && exists kind :: Said(sent, peer, at, Msg(Stamp(nb.timeOfBoot, got[t]), t, kind)) && Holds(nb, t, kind)
      else
        t !in nb.interest && Get(nb.upstream, t) == Lookup(Installed(s, k), t)
  }

  /** The pruned map of last numbers stands for the unpruned one. */
  ghost predicate Pruned(nb: Nb, got: map<Tree, nat>) {
    && (forall t :: t in nb.lastSn ==> t in got && got[t] == nb.lastSn[t] && nb.lastSn[t] >= 1)
    && (forall t :: t in got && t !in nb.lastSn ==> got[t] <= nb.checkpoint)
    && (nb.checkpoint > 0 ==> nb.state == Synced)
  }

  /** The phase of the exchange with respect to this router's own snapshot. */
  predicate PhaseOk(nb: Nb, mine: Snap) {
    && nb.state != Unknown
    && mine.peerBoot == nb.timeOfBoot
    && (nb.state != Synced ==> nb.myTable == mine.listing && nb.fragmentation == mine.fragmentation)
    && (nb.state == Synced ==> nb.myTable == [] && !More(mine.listing, mine.fragmentation, nb.syncSn))
    && (nb.neighborSn == 0 ==> nb.syncSn == 0 && nb.upstream == map[] && nb.interest == map[])
  }

  ghost predicate AdoptedOk(l: Link, at: Ip, peer: Ip, nb: Nb, got: map<Tree, nat>) {
    var b := Adopted(peer, nb);
    && b in l.snaps && l.snaps[b].peer == at && l.snaps[b].peerBoot <= nb.myBootTime
    && Replays(l.sent, at, peer, nb, nb.syncSn, l.snaps[b], got)
    && (nb.state == Synced ==> !More(l.snaps[b].listing, l.snaps[b].fragmentation, nb.syncSn))
  }

  ghost predicate NbOk(l: Link, at: Ip, peer: Ip, nb: Nb) {
    NbCore(l, at, peer, nb) && (nb.state != Slave ==> nb.syncSn >= 1)
  }

  ghost predicate NbCore(l: Link, at: Ip, peer: Ip, nb: Nb) {
    var a := Adjacency(at, nb);
    && at != peer
    && a in l.snaps && a in l.got && l.snaps[a].peer == peer
    && PhaseOk(nb, l.snaps[a])
    && Pruned(nb, l.got[a])
    && (nb.syncSn == 0 ==> l.got[a] == map[])
    && (nb.neighborSn != 0 ==> AdoptedOk(l, at, peer, nb, l.got[a]))
  }

  // ----- Acks -----

  /** Whoever sent this ack had, in the adjacency it names, delivered at least this number. */
  ghost predicate AckOk(l: Link, p: Packet)
    requires p.Ack?
  {
    exists boot :: AckedIn(l, p, boot)
  }

  ghost predicate AckedIn(l: Link, p: Packet, boot: nat)
    requires p.Ack?
  {
    var b := AdjId(p.src, Stamp(boot, p.mySn));
    var a := AdjId(p.dst, Stamp(p.neighborBootTime, p.neighborSn));
    && b in l.got && p.tree in l.got[b] && l.got[b][p.tree] >= p.sn
    && a in l.snaps && l.snaps[a].peerBoot <= boot <= p.bootTime
  }

  ghost predicate AcksOk(l: Link) {
    forall p :: p in l.sent && p.Ack? ==> AckOk(l, p)
  }

  // ----- What is in flight -----

  ghost predicate RouterFlightOk(sent: set<Packet>, at: Ip, r: Router) {
    && R.Inv(r.iface)
    && r.iface.neighbors == r.nbs.Keys
    && r.born <= r.iface.bootTime
    && forall t, n :: t in r.iface.buffer && r.iface.buffer[t].Pending(n) ==>
         LatestOwed(sent, at, r.iface.bootTime, t, r.iface.buffer[t], n)
  }

  function Owed(b: Rmt, n: Ip): Msg
    requires b.Pending(n)
  {
    if n in b.unicast then b.unicast[n] else b.multicast.value
  }

  /** What is pending for a neighbour is the last thing said to it about the tree. */
  ghost predicate LatestOwed(sent: set<Packet>, at: Ip, boot: nat, t: Tree, b: Rmt, n: Ip)
    requires b.Pending(n)
  {
    && Said(sent, at, n, Owed(b, n))
    && forall p :: p in sent && About(p, at, boot, t, n) ==> p.msg.stamp.sn <= Owed(b, n).stamp.sn
  }

  predicate About(p: Packet, at: Ip, boot: nat, t: Tree, n: Ip) {
    Relevant(p, n) && p.src == at && p.msg.stamp.bootTime == boot && p.msg.tree == t
  }

  // ----- Nothing is dropped that the neighbour does not have -----

  predicate Has(got: map<AdjId, map<Tree, nat>>, b: AdjId, t: Tree, sn: nat) {
    b in got && t in got[b] && got[b][t] >= sn
  }

  /** Every message said to a neighbour since the snapshot of the adjacency is either still pending
      for it or has been delivered, itself or a later one, in the adjacency it adopted. */
  ghost predicate NbSettled(sent: set<Packet>, got: map<AdjId, map<Tree, nat>>, at: Ip, i: Iface, n: Ip, nb: Nb) {
    i.bootTime == nb.myBootTime ==>
      && OwedIsNew(i, n, nb)
      && forall p :: p in sent && Relevant(p, n) && About(p, at, i.bootTime, p.msg.tree, n) && p.msg.stamp.sn > nb.mySn ==>
        i.Of(p.msg.tree).Pending(n) || (nb.neighborSn != 0 && Has(got, Adopted(n, nb), p.msg.tree, p.msg.stamp.sn))
  }

  /** What is pending for a neighbour was said after the snapshot taken for it. */
  ghost predicate OwedIsNew(i: Iface, n: Ip, nb: Nb) {
    forall t :: t in i.buffer && i.buffer[t].Pending(n) ==> Owed(i.buffer[t], n).stamp.sn > nb.mySn
  }

  // ----- The announced table -----

  predicate Says(p: Packet, at: Ip, since: nat, t: Tree) {
    p.Reliable? && p.src == at && p.to == None && p.msg.tree == t && p.msg.stamp.bootTime >= since
  }

  ghost predicate AllBefore(sent: set<Packet>, at: Ip, since: nat, t: Tree, s: Stamp) {
    forall q :: q in sent && Says(q, at, since, t) ==> AtMost(q.msg.stamp, s)
  }

  function Effect(kind: Kind): Option<Metric> {
    if kind.IamUpstream? then Some(kind.metric) else None
  }

  ghost predicate Last(sent: set<Packet>, at: Ip, since: nat, p: Packet) {
    p.Reliable? && p.src == at && p.msg.stamp.bootTime >= since && AllBefore(sent, at, since, p.msg.tree, p.msg.stamp)
  }

  /** The last announcement of a tree since the interface came up is what the table says. */
  ghost predicate RouterTableOk(sent: set<Packet>, at: Ip, r: Router) {
    forall p :: p in sent && Last(sent, at, r.born, p) && p.to == None ==> Get(r.table, p.msg.tree) == Effect(p.msg.kind)
  }

  /** Whatever the router put into a snapshot, or let know by telling its interest, since it last
      announced the tree or took that back is what its table says. */
  ghost predicate Truthful(l: Link, at: Ip, t: Tree)
    requires at in l.routers
  {
    var r := l.routers[at];
    && (forall p :: p in l.sent && Last(l.sent, at, r.born, p) && p.msg.tree == t ==> Get(r.table, t) == Effect(p.msg.kind))
    && (forall a :: a in l.snaps && a.router == at && AllSnapped(l.sent, at, r.born, t, a.stamp) ==>
          Lookup(l.snaps[a].listing, t) == Get(r.table, t))
  }

  ghost predicate AllSnapped(sent: set<Packet>, at: Ip, since: nat, t: Tree, s: Stamp) {
    s.bootTime >= since && AllBefore(sent, at, since, t, s)
  }

  // ----- CheckpointSN -----

  /** A CheckpointSN of the current BootTime is behind everything in flight. */
  ghost predicate CheckpointOk(l: Link, peer: Ip, boot: nat, c: nat) {
    && peer in l.routers
    && boot <= l.routers[peer].iface.bootTime
    && (boot == l.routers[peer].iface.bootTime ==> R.Settled(l.routers[peer].iface, c))
  }

  ghost predicate HellosOk(l: Link) {
    && (forall p :: p in l.sent && p.Hello? ==> CheckpointOk(l, p.src, p.bootTime, p.checkpoint))
    && (forall r, n :: r in l.routers && n in l.routers[r].nbs && l.routers[r].nbs[n].checkpoint > 0 ==>
          CheckpointOk(l, n, l.routers[r].nbs[n].timeOfBoot, l.routers[r].nbs[n].checkpoint))
  }

  // ----- All of it -----

  ghost predicate RouterOk(l: Link, at: Ip)
    requires at in l.routers
  {
    var r := l.routers[at];
    && RouterFlightOk(l.sent, at, r)
    && RouterTableOk(l.sent, at, r)
    && (forall n :: n in r.nbs ==> NbOk(l, at, n, r.nbs[n]) && NbSettled(l.sent, l.got, at, r.iface, n, r.nbs[n]))
  }

  ghost predicate Inv(l: Link) {
    && StampsOk(l) && SyncsOk(l) && AcksOk(l) && HellosOk(l)
    && forall r :: r in l.routers ==> RouterOk(l, r)
  }
}
