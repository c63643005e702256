/** What the protocol is for: over every run, whatever the network loses, duplicates, delays or
    reorders, what a router stores about its neighbours is what they said. */
module LinkTheorems {
  import opened Types
  import opened ReliableSpec
  import R = ReliableRuns
  import opened NeighborSpec
  import opened Link
  import opened LinkInv
  import opened LinkNb
  import opened LinkSteps
  import opened LinkDeliver

  lemma InitOk(l: Link)
    requires Init(l)
    ensures Inv(l)
  {
  }

  lemma NextKeepsInv(l: Link, a: Action)
    requires Inv(l) && Enabled(l, a)
    ensures Inv(Next(l, a))
  {
    match a
    case Deliver(at, p, env) => DeliverStep(l, at, p, env);
    case SyncTimer(at, peer) => SyncTimerStep(l, at, peer);
    case Announce(at, t, metric, clock) => AnnounceStep(l, at, t, metric, clock);
    case Signal(at, t, interested, to, clock) => SignalStep(l, at, t, interested, to, clock);
    case RetransmissionTimer(at, t) => TimerStep(l, at, t);
    case SayHello(at, c) => HelloStep(l, at, c);
    case LoseNeighbor(at, peer) => LoseStep(l, at, peer);
    case ForgetInterest(at, t) => ForgetStep(l, at, t);
    case Restart(at, clock, table) => RestartStep(l, at, clock, table);
  }

  lemma {:induction false} RunOk(ls: seq<Link>, actions: seq<Action>, k: nat)
    requires Run(ls, actions) && k <= |actions|
    ensures Inv(ls[k])
  {
    if k == 0 {
      InitOk(ls[0]);
    } else {
      RunOk(ls, actions, k - 1);
      NextKeepsInv(ls[k - 1], actions[k - 1]);
    }
  }

  ghost predicate Reachable(l: Link) {
    exists ls, actions :: Run(ls, actions) && l == ls[|actions|]
  }

  lemma ReachableOk(l: Link)
    requires Reachable(l)
    ensures Inv(l)
  {
    var ls, actions :| Run(ls, actions) && l == ls[|actions|];
    RunOk(ls, actions, |actions|);
  }

  predicate Knows(l: Link, r: Ip, p: Ip) {
    r in l.routers && p in l.routers[r].nbs
  }

  // ----- Snapshots -----

  /** A synchronised router stores a tree about which nothing newer was delivered exactly as the
      snapshot it adopted had it: all of that snapshot, and of no other. */
  lemma SnapshotIsComplete(l: Link, r: Ip, p: Ip, t: Tree)
    requires Reachable(l) && Knows(l, r, p) && l.routers[r].nbs[p].state == Synced
    ensures var nb := l.routers[r].nbs[p];
            && Adopted(p, nb) in l.snaps && l.snaps[Adopted(p, nb)].peer == r && Adjacency(r, nb) in l.got
            && (t !in l.got[Adjacency(r, nb)] ==>
                  t !in nb.interest && Get(nb.upstream, t) == Lookup(l.snaps[Adopted(p, nb)].listing, t))
  {
    ReachableOk(l);
    RecordFacts(l, r, p);
    var nb := l.routers[r].nbs[p];
    InstalledAll(l.snaps[Adopted(p, nb)], nb.syncSn);
  }

  /** Replication is replay: a tree about which something was delivered is stored as the last
      delivered message left it, and no tree is stored both as upstream and as a matter of interest. */
  lemma ReplicationIsReplay(l: Link, r: Ip, p: Ip, t: Tree)
    requires Reachable(l) && Knows(l, r, p)
    ensures var nb := l.routers[r].nbs[p];
            && Adjacency(r, nb) in l.got
            && !(t in nb.upstream && t in nb.interest)
            && (t in l.got[Adjacency(r, nb)] ==>
                  && l.got[Adjacency(r, nb)][t] > nb.neighborSn
                  && exists kind ::
                       && Said(l.sent, p, r, Msg(Stamp(nb.timeOfBoot, l.got[Adjacency(r, nb)][t]), t, kind))
                       && Holds(nb, t, kind))
  {
    ReachableOk(l);
    RecordFacts(l, r, p);
    var nb := l.routers[r].nbs[p];
    var got := l.got[Adjacency(r, nb)];
    if t in got {
      var kind :| Said(l.sent, p, r, Msg(Stamp(nb.timeOfBoot, got[t]), t, kind)) && Holds(nb, t, kind);
    }
  }

  /** Within an adjacency the numbers delivered for a tree strictly increase. */
  lemma DeliveriesIncrease(l: Link, r: Ip, p: Packet, env: Env)
    requires Reachable(l) && p.Reliable? && Knows(l, r, p.src)
    requires End(r, p.src, l.routers[r].iface, l.routers[r].nbs[p.src]).ReceiveReliable(p, env).delivered
    ensures var a := Adjacency(r, l.routers[r].nbs[p.src]);
            && a in l.got && (p.msg.tree in l.got[a] ==> l.got[a][p.msg.tree] < p.msg.stamp.sn)
  {
    ReachableOk(l);
    RecordFacts(l, r, p.src);
    var nb := l.routers[r].nbs[p.src];
    DeliveredShape(End(r, p.src, l.routers[r].iface, nb), p, env);
    DeliveredIsNewer(nb, l.got[Adjacency(r, nb)], p.msg);
  }

  lemma DeliveredIsNewer(nb: Nb, got: map<Tree, nat>, m: Msg)
    requires Pruned(nb, got) && m.stamp.sn > nb.checkpoint && m.stamp.sn > GetOr(nb.lastSn, m.tree, 0)
    ensures m.tree in got ==> got[m.tree] < m.stamp.sn
  {
  }

  /** A message of the neighbour's BootTime is up to date: the exchange of snapshots got far enough, it
      is later than the snapshot of the neighbour, and not behind the CheckpointSN. */
  predicate UpToDate(nb: Nb, m: Msg) {
    nb.state != Unknown && nb.syncSn > 0 && m.stamp.sn > nb.neighborSn && m.stamp.sn > nb.checkpoint
  }

  /** Which messages are delivered and which are acked: one is delivered exactly if it is up to date and
      later than all that were delivered about its tree in the adjacency, and acked, once, exactly if
      it is that or the very last of these. A stale one is neither. */
  lemma DeliveredExactlyIf(l: Link, r: Ip, p: Packet, env: Env)
    requires Reachable(l) && p.Reliable? && Knows(l, r, p.src) && p.msg.stamp.bootTime == l.routers[r].nbs[p.src].timeOfBoot
    requires p.msg.stamp.sn >= 1
    ensures var nb, o, m := l.routers[r].nbs[p.src], Handle(l.routers[r], r, p, env), p.msg;
            && Adjacency(r, nb) in l.got
            && var got := l.got[Adjacency(r, nb)];
               && (o.delivered <==> UpToDate(nb, m) && (m.tree in got ==> got[m.tree] < m.stamp.sn))
               && o.out == if UpToDate(nb, m) && (m.tree in got ==> got[m.tree] <= m.stamp.sn)
                           then [Ack(r, p.src, l.routers[r].iface.bootTime, m.stamp.bootTime, m.tree, nb.neighborSn, nb.mySn, m.stamp.sn)]
                           else []
  {
    ReachableOk(l);
    RecordFacts(l, r, p.src);
    var nb := l.routers[r].nbs[p.src];
    DecidedByLast(End(r, p.src, l.routers[r].iface, nb), l.got[Adjacency(r, nb)], p, env);
  }

  lemma DecidedByLast(e: End, got: map<Tree, nat>, p: Packet, env: Env)
    requires p.Reliable? && Pruned(e.nb, got) && p.msg.stamp.bootTime == e.nb.timeOfBoot && p.msg.stamp.sn >= 1
    ensures var o, m := e.ReceiveReliable(p, env), p.msg;
            && (o.delivered <==> UpToDate(e.nb, m) && (m.tree in got ==> got[m.tree] < m.stamp.sn))
            && o.out == if UpToDate(e.nb, m) && (m.tree in got ==> got[m.tree] <= m.stamp.sn)
                        then [Ack(e.me, e.peer, e.iface.bootTime, m.stamp.bootTime, m.tree, e.nb.neighborSn, e.nb.mySn, m.stamp.sn)]
                        else []
  {
  }

  /** Forgetting last numbers up to the CheckpointSN changes no decision: the unpruned map acks,
      delivers and ignores the same packets. */
  lemma PruningChangesNothing(l: Link, r: Ip, p: Packet, env: Env)
    requires Reachable(l) && p.Reliable? && Knows(l, r, p.src) && p.msg.stamp.sn >= 1
    ensures var e := End(r, p.src, l.routers[r].iface, l.routers[r].nbs[p.src]);
            && Adjacency(r, e.nb) in l.got
            && SameDecision(e.ReceiveReliable(p, env), Unpruned(e, l.got[Adjacency(r, e.nb)]).ReceiveReliable(p, env))
  {
    ReachableOk(l);
    RecordFacts(l, r, p.src);
    var nb := l.routers[r].nbs[p.src];
    PrunedDecides(End(r, p.src, l.routers[r].iface, nb), l.got[Adjacency(r, nb)], p, env);
  }

  function Unpruned(e: End, got: map<Tree, nat>): End {
    e.(nb := e.nb.(lastSn := got))
  }

  predicate SameDecision(o: Outcome, u: Outcome) {
    o.out == u.out && o.delivered == u.delivered
  }

  lemma PrunedDecides(e: End, got: map<Tree, nat>, p: Packet, env: Env)
    requires Pruned(e.nb, got) && p.Reliable? && p.msg.stamp.sn >= 1
    ensures SameDecision(e.ReceiveReliable(p, env), Unpruned(e, got).ReceiveReliable(p, env))
  {
    var boot := p.msg.stamp.bootTime;
    if boot > e.nb.timeOfBoot {
      ResetShape(e, boot, env);
      ResetShape(Unpruned(e, got), boot, env);
      ResetIgnoresLastSn(e, got, boot, env);
    }
  }

  lemma ResetIgnoresLastSn(e: End, got: map<Tree, nat>, boot: nat, env: Env)
    ensures e.Reset(boot, env) == Unpruned(e, got).Reset(boot, env)
  {
  }

  /** A synchronised router that hears a greater CheckpointSN forgets the last numbers up to it, and
      remembers just those of the delivered ones that are greater. */
  lemma CheckpointForgets(l: Link, r: Ip, p: Packet, env: Env)
    requires Reachable(l) && p.Hello? && Knows(l, r, p.src) && p.bootTime == l.routers[r].nbs[p.src].timeOfBoot
    requires l.routers[r].nbs[p.src].state == Synced && p.checkpoint > l.routers[r].nbs[p.src].checkpoint
    ensures var l2 := Next(l, Deliver(r, p, env));
            && Knows(l2, r, p.src) && Adjacency(r, l.routers[r].nbs[p.src]) in l.got
            && var nb, got := l2.routers[r].nbs[p.src], l.got[Adjacency(r, l.routers[r].nbs[p.src])];
               && nb.checkpoint == p.checkpoint
               && nb.lastSn == map t | t in got && got[t] > p.checkpoint :: got[t]
  {
    ReachableOk(l);
    RecordFacts(l, r, p.src);
    var nb := l.routers[r].nbs[p.src];
    GreaterAreKept(nb, l.got[Adjacency(r, nb)], p.checkpoint);
  }

  lemma GreaterAreKept(nb: Nb, got: map<Tree, nat>, sn: nat)
    requires Pruned(nb, got) && sn > nb.checkpoint
    ensures nb.SetCheckpoint(sn).lastSn == map t | t in got && got[t] > sn :: got[t]
  {
  }

  // ----- Nothing is lost -----

  /** Whatever a router said to a neighbour since the snapshot of their adjacency is still in flight
      for it, or that neighbour delivered it or something later about the same tree in the very
      adjacency this one adopted. Only a restart of the sender's numbers voids this. */
  lemma NothingIsLost(l: Link, s: Ip, r: Ip, p: Packet)
    requires Reachable(l) && Knows(l, s, r)
    requires l.routers[s].iface.bootTime == l.routers[s].nbs[r].myBootTime
    requires p in l.sent && Relevant(p, r) && p.src == s
    requires p.msg.stamp.bootTime == l.routers[s].iface.bootTime && p.msg.stamp.sn > l.routers[s].nbs[r].mySn
    ensures || l.routers[s].iface.Of(p.msg.tree).Pending(r)
            || Has(l.got, Adopted(r, l.routers[s].nbs[r]), p.msg.tree, p.msg.stamp.sn)
  {
    ReachableOk(l);
    assert RouterOk(l, s);
    assert About(p, s, l.routers[s].iface.bootTime, p.msg.tree, r);
  }

  /** An accepted ack takes a message out of flight for a neighbour only when it came from that
      neighbour and that neighbour had delivered the message or a later one. */
  lemma AcksAreSound(l: Link, s: Ip, a: Packet, env: Env, n: Ip, t: Tree)
    requires Reachable(l) && a in l.sent && a.Ack? && Reaches(a, s) && Knows(l, s, a.src) && Knows(l, s, n)
    requires a.bootTime == l.routers[s].nbs[a.src].timeOfBoot
    requires l.routers[s].iface.Of(t).Pending(n)
    requires !Handle(l.routers[s], s, a, env).end.iface.Of(t).Pending(n)
    ensures n == a.src && t == a.tree
    ensures Has(l.got, Adopted(n, l.routers[s].nbs[n]), t, Owed(l.routers[s].iface.Of(t), n).stamp.sn)
  {
    ReachableOk(l);
    var i := l.routers[s].iface;
    var e := End(s, a.src, i, l.routers[s].nbs[a.src]);
    HandledAck(l.routers[s], s, a, env);
    MatchedAckIsDelivered(l, s, a);
    LinkFlightAck(i, t, a, n);
  }

  /** The interface changes only when the ack names the pair of snapshots of the adjacency. */
  lemma HandledAck(r: Router, s: Ip, a: Packet, env: Env)
    requires a.Ack? && a.src in r.nbs && a.bootTime == r.nbs[a.src].timeOfBoot
    ensures Handle(r, s, a, env).end.iface
            == if End(s, a.src, r.iface, r.nbs[a.src]).Matches(a)
               then r.iface.ReceiveAck(a.tree, a.src, Stamp(a.neighborBootTime, a.sn)) else r.iface
  {
  }

  lemma MatchedAckIsDelivered(l: Link, s: Ip, a: Packet)
    requires Inv(l) && a in l.sent && a.Ack? && Reaches(a, s) && Knows(l, s, a.src)
    requires End(s, a.src, l.routers[s].iface, l.routers[s].nbs[a.src]).Matches(a)
    ensures Has(l.got, Adopted(a.src, l.routers[s].nbs[a.src]), a.tree, a.sn)
    ensures a.neighborBootTime <= l.routers[s].iface.bootTime
    ensures R.Inv(l.routers[s].iface) && l.routers[s].iface.neighbors == l.routers[s].nbs.Keys
  {
    RecordFacts(l, s, a.src);
    assert RouterOk(l, s) && AckOk(l, a);
    MatchingAckIsDelivered(l, End(s, a.src, l.routers[s].iface, l.routers[s].nbs[a.src]), a);
  }

  lemma LinkFlightAck(i: Iface, t: Tree, a: Packet, n: Ip)
    requires a.Ack? && R.Inv(i) && n in i.neighbors && i.Of(t).Pending(n)
    requires var stamp := Stamp(a.neighborBootTime, a.sn);
             !i.ReceiveAck(a.tree, a.src, stamp).Of(t).Pending(n) && stamp.bootTime <= i.bootTime
    ensures n == a.src && t == a.tree && Owed(i.Of(t), n).stamp.sn <= a.sn
  {
    assert R.TreeInv(i, t, i.buffer[t]);
  }

  /** Everything that can have become of a message that is not in flight for a neighbour any more. */
  ghost predicate Accounted(l: Link, s: Ip, r: Ip, m: Msg)
    requires s in l.routers
  {
    var q := l.routers[s];
    || r !in q.nbs
    || m.stamp.bootTime != q.iface.bootTime || q.nbs[r].myBootTime != q.iface.bootTime
    || m.stamp.sn <= q.nbs[r].mySn
    || (q.iface.Of(m.tree).Pending(r) && Owed(q.iface.Of(m.tree), r).stamp.sn > m.stamp.sn)
    || Has(l.got, Adopted(r, q.nbs[r]), m.tree, m.stamp.sn)
  }

  /** A message is out of flight for a neighbour only if the neighbour is gone, the numbers started
      over, a later snapshot for it covers the message, a later message about the tree took its
      place, or the neighbour delivered it or a later one in the adjacency this one adopted. */
  lemma WhatBecameOfIt(l: Link, s: Ip, r: Ip, p: Packet)
    requires Reachable(l) && s in l.routers && p in l.sent && Relevant(p, r) && p.src == s
    requires !(l.routers[s].iface.Of(p.msg.tree).Pending(r) && Owed(l.routers[s].iface.Of(p.msg.tree), r) == p.msg)
    ensures Accounted(l, s, r, p.msg)
  {
    ReachableOk(l);
    assert RouterOk(l, s);
    var i, t := l.routers[s].iface, p.msg.tree;
    if r in l.routers[s].nbs && p.msg.stamp.bootTime == i.bootTime {
      assert About(p, s, i.bootTime, t, r);
      if i.Of(t).Pending(r) {
        TookItsPlace(l, s, r, p);
      }
    }
  }

  lemma TookItsPlace(l: Link, s: Ip, r: Ip, p: Packet)
    requires StampsOk(l) && s in l.routers && p in l.sent && p.Reliable? && RouterFlightOk(l.sent, s, l.routers[s])
    requires About(p, s, l.routers[s].iface.bootTime, p.msg.tree, r)
    requires var b := l.routers[s].iface.Of(p.msg.tree); b.Pending(r) && Owed(b, r) != p.msg
    ensures Owed(l.routers[s].iface.Of(p.msg.tree), r).stamp.sn > p.msg.stamp.sn
  {
    var i, t := l.routers[s].iface, p.msg.tree;
    var m := Owed(i.Of(t), r);
    assert LatestOwed(l.sent, s, i.bootTime, t, i.buffer[t], r);
    assert R.TreeInv(i, t, i.buffer[t]);
    var q := if Reliable(s, None, m) in l.sent then Reliable(s, None, m) else Reliable(s, Some(r), m);
    if m.stamp.sn == p.msg.stamp.sn {
      assert SameStamp(p, q);
    }
  }

  /** As long as fragments may still be installed nothing is pruned: the last number of every tree
      delivered in the adjacency is at hand, so no fragment overwrites anything fresher. */
  lemma NothingIsPrunedWhileSyncing(l: Link, r: Ip, p: Ip)
    requires Reachable(l) && Knows(l, r, p) && l.routers[r].nbs[p].state != Synced
    ensures Adjacency(r, l.routers[r].nbs[p]) in l.got
    ensures l.routers[r].nbs[p].lastSn == l.got[Adjacency(r, l.routers[r].nbs[p])]
  {
    ReachableOk(l);
    RecordFacts(l, r, p);
    var nb := l.routers[r].nbs[p];
    var got := l.got[Adjacency(r, nb)];
    forall t | t in got ensures t in nb.lastSn {
      assert nb.neighborSn != 0 && got[t] > nb.neighborSn;
    }
  }

  // ----- Both ends agree -----

  /** Two routers are synchronised with one another: each adopted the snapshot the other took for
      it, and neither has restarted its numbers since. */
  ghost predicate Matched(l: Link, s: Ip, r: Ip) {
    && Knows(l, s, r) && Knows(l, r, s)
    && Adopted(s, l.routers[r].nbs[s]) == Adjacency(s, l.routers[s].nbs[r])
    && Adopted(r, l.routers[s].nbs[r]) == Adjacency(r, l.routers[r].nbs[s])
    && l.routers[s].iface.bootTime == l.routers[s].nbs[r].myBootTime
    && l.routers[r].iface.bootTime == l.routers[r].nbs[s].myBootTime
  }

  lemma MatchedFacts(l: Link, s: Ip, r: Ip)
    requires Inv(l) && Matched(l, s, r)
    ensures var nb := l.routers[r].nbs[s];
            && NbOk(l, r, s, nb) && nb.neighborSn != 0 && AdoptedOk(l, r, s, nb, l.got[Adjacency(r, nb)])
            && nb.timeOfBoot == l.routers[s].iface.bootTime
            && nb.neighborSn == l.routers[s].nbs[r].mySn
            && RouterTableOk(l.sent, s, l.routers[s]) && RouterFlightOk(l.sent, s, l.routers[s])
            && NbSettled(l.sent, l.got, s, l.routers[s].iface, r, l.routers[s].nbs[r])
            && Adopted(s, nb) in l.snaps
  {
    RecordFacts(l, r, s);
    RecordFacts(l, s, r);
    assert TakenOk(l, Adjacency(s, l.routers[s].nbs[r]));
    assert RouterOk(l, s);
  }

  /** The last message that `s` said to `r` about its tree since the snapshot for `r`. */
  ghost predicate LastTo(l: Link, s: Ip, r: Ip, p: Packet)
    requires Knows(l, s, r)
  {
    var boot := l.routers[s].iface.bootTime;
    && p in l.sent && p.Reliable? && About(p, s, boot, p.msg.tree, r) && p.msg.stamp.sn > l.routers[s].nbs[r].mySn
    && forall q :: q in l.sent && About(q, s, boot, p.msg.tree, r) ==> q.msg.stamp.sn <= p.msg.stamp.sn
  }

  /** Once nothing is pending for the receiver about a tree it holds exactly what the last message
      to it about the tree said, whatever that was. */
  lemma StoredIsLastSaid(l: Link, s: Ip, r: Ip, p: Packet)
    requires Reachable(l) && Matched(l, s, r) && LastTo(l, s, r, p)
    requires !l.routers[s].iface.Of(p.msg.tree).Pending(r)
    ensures Holds(l.routers[r].nbs[s], p.msg.tree, p.msg.kind)
  {
    ReachableOk(l);
    MatchedFacts(l, s, r);
    NothingIsLost(l, s, r, p);
    var nb := l.routers[r].nbs[s];
    var q := HeardPacket(l.sent, r, s, nb, l.snaps[Adopted(s, nb)], l.got[Adjacency(r, nb)], p.msg.tree);
    assert About(q, s, l.routers[s].iface.bootTime, p.msg.tree, r);
    assert SameStamp(p, q);
  }

  /** And if nothing was said to it about the tree since, exactly what the snapshot says. */
  lemma StoredIsSnapshot(l: Link, s: Ip, r: Ip, t: Tree)
    requires Reachable(l) && Matched(l, s, r) && l.routers[r].nbs[s].state == Synced
    requires forall q :: q in l.sent && About(q, s, l.routers[s].iface.bootTime, t, r) ==>
               q.msg.stamp.sn <= l.routers[s].nbs[r].mySn
    ensures Adjacency(s, l.routers[s].nbs[r]) in l.snaps && t !in l.routers[r].nbs[s].interest
    ensures Get(l.routers[r].nbs[s].upstream, t) == Lookup(l.snaps[Adjacency(s, l.routers[s].nbs[r])].listing, t)
  {
    ReachableOk(l);
    MatchedFacts(l, s, r);
    var nb := l.routers[r].nbs[s];
    if t in l.got[Adjacency(r, nb)] {
      var p := HeardPacket(l.sent, r, s, nb, l.snaps[Adopted(s, nb)], l.got[Adjacency(r, nb)], t);
      assert About(p, s, l.routers[s].iface.bootTime, t, r);
    }
    InstalledAll(l.snaps[Adopted(s, nb)], nb.syncSn);
  }

  /** Once the receiver is synchronised and nothing is pending for it about a tree, it stores that
      tree as upstream exactly when the sender announces it, and with the metric announced: provided
      that the sender told nobody otherwise since it announced the tree. */
  lemma QuiescentAgreement(l: Link, s: Ip, r: Ip, t: Tree)
    requires Reachable(l) && Matched(l, s, r) && l.routers[r].nbs[s].state == Synced
    requires !l.routers[s].iface.Of(t).Pending(r) && Truthful(l, s, t)
    ensures Get(l.routers[r].nbs[s].upstream, t) == Get(l.routers[s].table, t)
  {
    ReachableOk(l);
    MatchedFacts(l, s, r);
    if t in l.got[Adjacency(r, l.routers[r].nbs[s])] {
      HeardAgrees(l, s, r, t);
    } else {
      SnapshotAgrees(l, s, r, t);
    }
  }

  lemma HeardAgrees(l: Link, s: Ip, r: Ip, t: Tree)
    requires Inv(l) && Matched(l, s, r) && !l.routers[s].iface.Of(t).Pending(r) && Truthful(l, s, t)
    requires t in GetOr(l.got, Adjacency(r, l.routers[r].nbs[s]), map[])
    ensures Get(l.routers[r].nbs[s].upstream, t) == Get(l.routers[s].table, t)
  {
    MatchedFacts(l, s, r);
    var nb := l.routers[r].nbs[s];
    var p := HeardPacket(l.sent, r, s, nb, l.snaps[Adopted(s, nb)], l.got[Adjacency(r, nb)], t);
    HeardIsLast(l, s, r, p);
  }

  /** The message the stored state of a tree comes from. */
  lemma HeardPacket(sent: set<Packet>, at: Ip, peer: Ip, nb: Nb, s: Snap, got: map<Tree, nat>, t: Tree) returns (p: Packet)
    requires Replays(sent, at, peer, nb, nb.syncSn, s, got) && t in got
    ensures p in sent && p.Reliable? && p.src == peer && Relevant(p, at)
    ensures p.msg.tree == t && p.msg.stamp == Stamp(nb.timeOfBoot, got[t])
    ensures Holds(nb, t, p.msg.kind)
  {
    var kind :| Said(sent, peer, at, Msg(Stamp(nb.timeOfBoot, got[t]), t, kind)) && Holds(nb, t, kind);
    var m := Msg(Stamp(nb.timeOfBoot, got[t]), t, kind);
    p := if Reliable(peer, None, m) in sent then Reliable(peer, None, m) else Reliable(peer, Some(at), m);
  }

  lemma HeardIsLast(l: Link, s: Ip, r: Ip, p: Packet)
    requires Inv(l) && Matched(l, s, r) && p in l.sent && p.Reliable? && p.src == s
    requires !l.routers[s].iface.Of(p.msg.tree).Pending(r) && Truthful(l, s, p.msg.tree)
    requires HeardLastIn(l, r, p)
    ensures Get(l.routers[s].table, p.msg.tree) == Effect(p.msg.kind)
  {
    MatchedFacts(l, s, r);
    var t, born := p.msg.tree, l.routers[s].born;
    forall q | q in l.sent && Says(q, s, born, t) ensures AtMost(q.msg.stamp, p.msg.stamp) {
      SaidIsOlder(l, s, r, p, q);
    }
    assert Last(l.sent, s, born, p);
  }

  /** `p` is the last message about its tree that `r` delivered from its sender. */
  ghost predicate HeardLastIn(l: Link, r: Ip, p: Packet)
    requires p.Reliable?
  {
    && Knows(l, r, p.src)
    && var nb := l.routers[r].nbs[p.src];
       && Has(l.got, Adjacency(r, nb), p.msg.tree, p.msg.stamp.sn)
       && p.msg.stamp == Stamp(nb.timeOfBoot, l.got[Adjacency(r, nb)][p.msg.tree])
       && p.msg.stamp.sn > nb.neighborSn
  }

  lemma SaidIsOlder(l: Link, s: Ip, r: Ip, p: Packet, q: Packet)
    requires Inv(l) && Matched(l, s, r) && p.Reliable? && p.src == s && HeardLastIn(l, r, p)
    requires q in l.sent && q.Reliable? && q.to == None && q.src == s && q.msg.tree == p.msg.tree
    requires !l.routers[s].iface.Of(p.msg.tree).Pending(r)
    ensures AtMost(q.msg.stamp, p.msg.stamp)
  {
    SaidIsHeard(l, s, r, q);
  }

  lemma SnapshotAgrees(l: Link, s: Ip, r: Ip, t: Tree)
    requires Inv(l) && Matched(l, s, r) && !l.routers[s].iface.Of(t).Pending(r) && Truthful(l, s, t)
    requires t !in GetOr(l.got, Adjacency(r, l.routers[r].nbs[s]), map[]) && l.routers[r].nbs[s].state == Synced
    ensures Get(l.routers[r].nbs[s].upstream, t) == Get(l.routers[s].table, t)
  {
    MatchedFacts(l, s, r);
    var nb := l.routers[r].nbs[s];
    var a := Adjacency(s, l.routers[s].nbs[r]);
    InstalledAll(l.snaps[Adopted(s, nb)], nb.syncSn);
    forall q | q in l.sent && Says(q, s, l.routers[s].born, t) ensures AtMost(q.msg.stamp, a.stamp) {
      SaidIsHeard(l, s, r, q);
    }
    assert AllSnapped(l.sent, s, l.routers[s].born, t, a.stamp);
  }

  /** What the sender said to everybody is covered by the snapshot or was heard. */
  lemma SaidIsHeard(l: Link, s: Ip, r: Ip, q: Packet)
    requires Inv(l) && Matched(l, s, r) && q in l.sent && q.Reliable? && q.to == None && q.src == s
    requires !l.routers[s].iface.Of(q.msg.tree).Pending(r)
    ensures var a := Adjacency(s, l.routers[s].nbs[r]);
            || AtMost(q.msg.stamp, a.stamp)
            || (q.msg.stamp.bootTime == a.stamp.bootTime
                && Has(l.got, Adjacency(r, l.routers[r].nbs[s]), q.msg.tree, q.msg.stamp.sn))
  {
    MatchedFacts(l, s, r);
    assert SentOk(l, q);
    if q.msg.stamp.bootTime == l.routers[s].iface.bootTime && q.msg.stamp.sn > l.routers[s].nbs[r].mySn {
      assert About(q, s, l.routers[s].iface.bootTime, q.msg.tree, r);
    }
  }

  // ----- A pending message can always be settled -----

  function OwedPacket(l: Link, s: Ip, r: Ip, t: Tree): Packet
    requires s in l.routers && l.routers[s].iface.Of(t).Pending(r)
  {
    var m := Owed(l.routers[s].iface.Of(t), r);
    if Reliable(s, None, m) in l.sent then Reliable(s, None, m) else Reliable(s, Some(r), m)
  }

  /** Between matched routers one delivery and one ack settle a pending message: it is not too old
      for the receiver, whatever CheckpointSN it heard, so it is acked, and the ack is accepted. */
  lemma PendingCanBeSettled(l: Link, s: Ip, r: Ip, t: Tree, env: Env, env2: Env)
    requires Reachable(l) && Matched(l, s, r) && l.routers[r].nbs[s].syncSn > 0 && l.routers[s].nbs[r].syncSn > 0
    requires l.routers[s].iface.Of(t).Pending(r)
    ensures var p := OwedPacket(l, s, r, t);
            var o := End(r, s, l.routers[r].iface, l.routers[r].nbs[s]).ReceiveReliable(p, env);
            && p in l.sent && |o.out| == 1 && o.out[0].Ack?
            && var o2 := End(s, r, l.routers[s].iface, l.routers[s].nbs[r]).ReceiveAck(o.out[0], env2);
               !o2.end.iface.Of(t).Pending(r)
  {
    ReachableOk(l);
    OwedIsAcceptable(l, s, r, t);
    RecordFacts(l, r, s);
    RecordFacts(l, s, r);
    var m := Owed(l.routers[s].iface.Of(t), r);
    var ack := Ack(r, s, l.routers[r].iface.bootTime, m.stamp.bootTime, t, l.routers[r].nbs[s].neighborSn,
                   l.routers[r].nbs[s].mySn, m.stamp.sn);
    AcceptableIsAcked(End(r, s, l.routers[r].iface, l.routers[r].nbs[s]), OwedPacket(l, s, r, t), ack, env);
    assert RouterOk(l, s);
    AckSettles(End(s, r, l.routers[s].iface, l.routers[s].nbs[r]), t, ack, env2);
  }

  lemma AcceptableIsAcked(e: End, p: Packet, ack: Packet, env: Env)
    requires p.Reliable? && e.nb.state != Unknown && e.nb.syncSn > 0 && p.msg.stamp.bootTime == e.nb.timeOfBoot
    requires p.msg.stamp.sn > e.nb.neighborSn && p.msg.stamp.sn > e.nb.checkpoint
    requires p.msg.stamp.sn >= GetOr(e.nb.lastSn, p.msg.tree, 0)
    requires ack == Ack(e.me, e.peer, e.iface.bootTime, p.msg.stamp.bootTime, p.msg.tree, e.nb.neighborSn, e.nb.mySn, p.msg.stamp.sn)
    ensures e.ReceiveReliable(p, env).out == [ack]
  {
  }

  lemma AckSettles(e: End, t: Tree, ack: Packet, env: Env)
    requires ack.Ack? && ack.tree == t && e.Matches(ack) && R.Inv(e.iface) && e.iface.Of(t).Pending(e.peer)
    requires Owed(e.iface.Of(t), e.peer).stamp == Stamp(ack.neighborBootTime, ack.sn)
    ensures !e.ReceiveAck(ack, env).end.iface.Of(t).Pending(e.peer)
  {
    AckClears(e.iface, t, e.peer, Owed(e.iface.Of(t), e.peer).stamp);
  }

  lemma AckClears(i: Iface, t: Tree, n: Ip, stamp: Stamp)
    requires R.Inv(i) && i.Of(t).Pending(n) && AtMost(Owed(i.Of(t), n).stamp, stamp)
    ensures !i.ReceiveAck(t, n, stamp).Of(t).Pending(n)
  {
    assert R.TreeInv(i, t, i.buffer[t]);
  }

  lemma OwedIsAcceptable(l: Link, s: Ip, r: Ip, t: Tree)
    requires Inv(l) && Matched(l, s, r) && l.routers[s].iface.Of(t).Pending(r)
    ensures var m := Owed(l.routers[s].iface.Of(t), r);
            var nb := l.routers[r].nbs[s];
            && OwedPacket(l, s, r, t) in l.sent && m.tree == t && m.stamp.bootTime == nb.timeOfBoot
            && m.stamp.sn > nb.neighborSn && m.stamp.sn > nb.checkpoint && m.stamp.sn >= GetOr(nb.lastSn, t, 0)
  {
    MatchedFacts(l, s, r);
    RecordFacts(l, r, s);
    var i := l.routers[s].iface;
    var m := Owed(i.Of(t), r);
    var nb := l.routers[r].nbs[s];
    assert R.TreeInv(i, t, i.buffer[t]);
    assert LatestOwed(l.sent, s, i.bootTime, t, i.buffer[t], r);
    assert R.Carries(i.buffer[t], m) && R.InFlight(i, m);
    if t in nb.lastSn {
      var got := l.got[Adjacency(r, nb)];
      var kind :| Said(l.sent, s, r, Msg(Stamp(nb.timeOfBoot, got[t]), t, kind)) && Holds(nb, t, kind);
      var h := Msg(Stamp(nb.timeOfBoot, got[t]), t, kind);
      var q := if Reliable(s, None, h) in l.sent then Reliable(s, None, h) else Reliable(s, Some(r), h);
      assert About(q, s, i.bootTime, t, r);
    }
  }
}
