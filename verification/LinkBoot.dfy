/** Which BootTime a router knows a neighbour by: a newer one starts everything over, an older one is
    ignored, and no router ever goes back to an older one. */
module LinkBoot {
  import opened Types
  import opened NeighborSpec
  import opened Link
  import opened LinkInv
  import opened LinkNb
  import opened LinkDeliver
  import opened LinkTheorems
  import LinkTable

  function BootOf(p: Packet): nat {
    match p
    case Sync(_, _, boot, _, _, _, _, _, _, _) => boot
    case Hello(_, boot, _) => boot
    case Reliable(_, _, m) => m.stamp.bootTime
    case Ack(_, _, boot, _, _, _, _, _) => boot
  }

  /** A Sync counts only when it names the BootTime the receiver has now. */
  predicate Accepted(r: Router, p: Packet) {
    p.Sync? ==> p.neighborBootTime == r.iface.bootTime
  }

  /** Nothing is known of the neighbour but its BootTime, and a new snapshot waits to be sent to it. */
  predicate Blank(nb: Nb, boot: nat, env: Env) {
    && nb.state == Slave && nb.timeOfBoot == boot && nb.syncSn == 0 && nb.neighborSn == 0 && nb.checkpoint == 0
    && nb.interest == map[] && nb.upstream == map[] && nb.lastSn == map[]
    && nb.myTable == env.listing && nb.fragmentation == env.fragmentation
  }

  /** A neighbour known by an older BootTime starts over with any accepted packet of a newer one, a
      Hello as well as any other: all that is known of it is forgotten, a snapshot is taken under a new
      number, and one packet goes out, the first Sync of this end as driver, which names the new
      BootTime. */
  lemma NewerBootStartsOver(l: Link, at: Ip, p: Packet, env: Env)
    requires at in l.routers && p.src in l.routers[at].nbs && EnvOk(l.routers[at], env) && Accepted(l.routers[at], p)
    requires BootOf(p) > l.routers[at].nbs[p.src].timeOfBoot
    ensures var l2 := Next(l, Deliver(at, p, env));
            && Knows(l2, at, p.src)
            && var nb := l2.routers[at].nbs[p.src];
               && Blank(nb, BootOf(p), env)
               && Stamp(nb.myBootTime, nb.mySn) == l2.routers[at].iface.Now()
               && Before(l.routers[at].iface.Now(), l2.routers[at].iface.Now())
               && l2.sent == l.sent + {Sync(at, p.src, nb.myBootTime, BootOf(p), nb.mySn, 0, 0,
                                            Fragment(env.listing, env.fragmentation, 0), true,
                                            More(env.listing, env.fragmentation, 0))}
  {
    var e := End(at, p.src, l.routers[at].iface, l.routers[at].nbs[p.src]);
    ResetShape(e, BootOf(p), env);
    SnappedShape(e.iface, p.src, env.clock);
  }

  lemma OlderIsQuiet(e: End, p: Packet, env: Env)
    requires BootOf(p) < e.nb.timeOfBoot
    ensures e.Receive(p, env) == e.Quiet()
  {
  }

  /** A packet of an older BootTime changes nothing at all. */
  lemma OlderBootIsIgnored(l: Link, at: Ip, p: Packet, env: Env)
    requires Inv(l) && Enabled(l, Deliver(at, p, env)) && Knows(l, at, p.src)
    requires BootOf(p) < l.routers[at].nbs[p.src].timeOfBoot
    ensures Next(l, Deliver(at, p, env)) == l
  {
    var r := l.routers[at];
    RecordFacts(l, at, p.src);
    OlderIsQuiet(End(at, p.src, r.iface, r.nbs[p.src]), p, env);
    assert r.nbs[p.src := r.nbs[p.src]] == r.nbs;
    assert l.sent + ToSet([]) == l.sent;
  }

  // ----- Over runs -----

  lemma MasterKeepsBoot(e: End, m: Packet, env: Env)
    requires m.Sync?
    ensures e.MasterSync(m, env).end.nb.timeOfBoot == e.nb.timeOfBoot
  {
    InstallEffect(e.Adopt(m.mySn).nb, m.trees, Tree(0, 0));
  }

  lemma SlaveKeepsBoot(e: End, m: Packet, env: Env)
    requires m.Sync?
    ensures e.SlaveSync(m, env).end.nb.timeOfBoot == e.nb.timeOfBoot
  {
    var f := e.Adopt(m.mySn);
    InstallEffect(f.nb.(syncSn := f.nb.syncSn + 1), m.trees, Tree(0, 0));
    MasterKeepsBoot(f.(nb := f.nb.(state := Master, syncSn := 0)), m, env);
  }

  lemma UnknownKeepsBoot(e: End, m: Packet, env: Env)
    requires m.Sync?
    ensures e.UnknownSync(m, env).end.nb.timeOfBoot == e.nb.timeOfBoot
  {
    MeetShape(e, env);
    var f := e.(nb := e.nb.(state := Master)).StartSnapshot(env);
    MasterKeepsBoot(f.(nb := f.nb.Forget()), m, env);
  }

  /** A packet leaves the BootTime, or takes it over if it is newer. */
  lemma BootTakenOver(e: End, p: Packet, env: Env)
    ensures var boot := e.Receive(p, env).end.nb.timeOfBoot; boot == if BootOf(p) > e.nb.timeOfBoot then BootOf(p) else e.nb.timeOfBoot
  {
    if p.Sync? {
      match e.nb.state
      case Unknown => UnknownKeepsBoot(e, p, env);
      case Master => MasterKeepsBoot(e, p, env);
      case Slave => SlaveKeepsBoot(e, p, env);
      case Synced =>
    }
  }

  /** Whoever is known after a packet of it was accepted is known by its BootTime or a newer one. */
  lemma HeardBoot(l: Link, at: Ip, p: Packet, env: Env)
    requires at in l.routers && Accepted(l.routers[at], p)
    ensures Knows(Next(l, Deliver(at, p, env)), at, p.src)
    ensures var boot := Next(l, Deliver(at, p, env)).routers[at].nbs[p.src].timeOfBoot;
            boot == if Knows(l, at, p.src) && l.routers[at].nbs[p.src].timeOfBoot > BootOf(p)
                    then l.routers[at].nbs[p.src].timeOfBoot else BootOf(p)
  {
    var r := l.routers[at];
    if p.src in r.nbs {
      BootTakenOver(End(at, p.src, r.iface, r.nbs[p.src]), p, env);
    } else {
      var e := End(at, p.src, r.iface.(neighbors := r.iface.neighbors + {p.src}), NewNb(BootOf(p), r.iface.bootTime));
      BootTakenOver(e, p, env);
    }
  }

  lemma StepKeepsBoot(l: Link, a: Action, r: Ip, s: Ip)
    requires Enabled(l, a) && Knows(l, r, s) && Knows(Next(l, a), r, s)
    ensures Next(l, a).routers[r].nbs[s].timeOfBoot >= l.routers[r].nbs[s].timeOfBoot
  {
    if a.Deliver? && a.at == r && Accepted(l.routers[r], a.packet) {
      if a.packet.src == s {
        HeardBoot(l, r, a.packet, a.env);
      } else {
        OtherRecord(l, r, a.packet, a.env, s);
      }
    }
  }

  lemma OtherRecord(l: Link, at: Ip, p: Packet, env: Env, s: Ip)
    requires at in l.routers && p.src != s
    ensures var l2 := Next(l, Deliver(at, p, env));
            Knows(l2, at, s) ==> Knows(l, at, s) && l2.routers[at].nbs[s] == l.routers[at].nbs[s]
  {
  }

  predicate KnownSince(ls: seq<Link>, j: nat, k: nat, r: Ip, s: Ip)
    requires k < |ls|
    decreases k
  {
    Knows(ls[k], r, s) && (j < k ==> KnownSince(ls, j, k - 1, r, s))
  }

  /** While a router goes on knowing a neighbour its BootTime never goes back. */
  lemma {:induction false} BootNeverGoesBack(ls: seq<Link>, actions: seq<Action>, j: nat, k: nat, r: Ip, s: Ip)
    requires Run(ls, actions) && j <= k <= |actions| && KnownSince(ls, j, k, r, s)
    ensures Knows(ls[j], r, s) && Knows(ls[k], r, s)
    ensures ls[k].routers[r].nbs[s].timeOfBoot >= ls[j].routers[r].nbs[s].timeOfBoot
    decreases k
  {
    if j < k {
      BootNeverGoesBack(ls, actions, j, k - 1, r, s);
      LinkTable.RunFacts(ls, actions, k);
      StepKeepsBoot(ls[k - 1], actions[k - 1], r, s);
    }
  }

  /** Once a Hello, or any other packet that is accepted, of some BootTime was delivered, the neighbour
      is known by that BootTime or a newer one until it is lost. */
  lemma BootIsRemembered(ls: seq<Link>, actions: seq<Action>, j: nat, k: nat)
    requires Run(ls, actions) && j < k <= |actions| && actions[j].Deliver? && Accepted(ls[j].routers[actions[j].at], actions[j].packet)
    requires KnownSince(ls, j + 1, k, actions[j].at, actions[j].packet.src)
    ensures var a := actions[j];
            Knows(ls[k], a.at, a.packet.src) && ls[k].routers[a.at].nbs[a.packet.src].timeOfBoot >= BootOf(a.packet)
  {
    var a := actions[j];
    HeardBoot(ls[j], a.at, a.packet, a.env);
    BootNeverGoesBack(ls, actions, j + 1, k, a.at, a.packet.src);
  }
}
