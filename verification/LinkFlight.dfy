/** What acks, snapshots, sends and timers do to what a router has in flight, seen by each of its
    neighbours. */
module LinkFlight {
  import opened Types
  import opened Metrics
  import opened ReliableSpec
  import R = ReliableRuns
  import opened NeighborSpec
  import opened Link
  import opened LinkInv

  // ----- Acks -----

  /** An ack takes from the debts of the neighbour it comes from only what it is stamped for,
      and nothing from anybody else's. */
  lemma AckEffect(b: Rmt, neighbors: set<Ip>, ip: Ip, stamp: Stamp, n: Ip)
    requires b.multicast.Some? ==> b.unicast.Keys <= b.acked
    ensures var q := b.ReceiveAck(neighbors, ip, stamp);
            && (q.Pending(n) ==> b.Pending(n) && Owed(q, n) == Owed(b, n))
            && (n in neighbors && b.Pending(n) && !q.Pending(n) ==> n == ip && AtMost(Owed(b, n).stamp, stamp))
  {
  }

  lemma OwedIsCurrent(sent: set<Packet>, at: Ip, r: Router, t: Tree, n: Ip)
    requires RouterFlightOk(sent, at, r) && t in r.iface.buffer && r.iface.buffer[t].Pending(n)
    ensures R.Current(r.iface, t, Owed(r.iface.buffer[t], n))
  {
    assert R.TreeInv(r.iface, t, r.iface.buffer[t]);
  }

  /** One tree's buffer is replaced by one that owes less. */
  ghost predicate OwesLess(i: Iface, j: Iface, t: Tree)
    requires t in i.buffer && t in j.buffer
  {
    forall n :: j.buffer[t].Pending(n) ==> i.buffer[t].Pending(n) && Owed(j.buffer[t], n) == Owed(i.buffer[t], n)
  }

  lemma OwingLessKeepsFlight(sent: set<Packet>, at: Ip, r: Router, q: Router)
    requires RouterFlightOk(sent, at, r)
    requires R.Inv(q.iface) && q.iface.neighbors == q.nbs.Keys && q.iface.bootTime == r.iface.bootTime && q.born == r.born
    requires q.iface.buffer.Keys <= r.iface.buffer.Keys
    requires forall t :: t in q.iface.buffer ==> OwesLess(r.iface, q.iface, t)
    ensures RouterFlightOk(sent, at, q)
  {
    forall t, n | t in q.iface.buffer && q.iface.buffer[t].Pending(n)
      ensures LatestOwed(sent, at, q.iface.bootTime, t, q.iface.buffer[t], n)
    {
      assert OwesLess(r.iface, q.iface, t);
      assert r.iface.buffer[t].Pending(n);
      assert LatestOwed(sent, at, r.iface.bootTime, t, r.iface.buffer[t], n);
    }
  }

  lemma AckKeepsFlight(sent: set<Packet>, at: Ip, r: Router, t: Tree, ip: Ip, stamp: Stamp)
    requires RouterFlightOk(sent, at, r)
    ensures RouterFlightOk(sent, at, r.(iface := r.iface.ReceiveAck(t, ip, stamp)))
  {
    var q := r.(iface := r.iface.ReceiveAck(t, ip, stamp));
    R.NextKeepsInv(r.iface, R.Ack(t, ip, stamp));
    forall u | u in q.iface.buffer ensures OwesLess(r.iface, q.iface, u) {
      if u == t {
        assert R.TreeInv(r.iface, t, r.iface.buffer[t]);
        forall n | q.iface.buffer[t].Pending(n)
          ensures r.iface.buffer[t].Pending(n) && Owed(q.iface.buffer[t], n) == Owed(r.iface.buffer[t], n)
        {
          AckEffect(r.iface.buffer[t], r.iface.neighbors, ip, stamp, n);
        }
      }
    }
    OwingLessKeepsFlight(sent, at, r, q);
  }

  /** An accepted ack drops a message for a neighbour only when that neighbour has it. */
  lemma AckKeepsSettled(sent: set<Packet>, got: map<AdjId, map<Tree, nat>>, at: Ip, r: Router,
                        t: Tree, ip: Ip, stamp: Stamp, n: Ip)
    requires RouterFlightOk(sent, at, r) && n in r.nbs
    requires NbSettled(sent, got, at, r.iface, n, r.nbs[n])
    requires n == ip && stamp.bootTime == r.iface.bootTime ==>
               r.nbs[n].neighborSn != 0 && Has(got, Adopted(n, r.nbs[n]), t, stamp.sn)
    requires stamp.bootTime <= r.iface.bootTime
    ensures NbSettled(sent, got, at, r.iface.ReceiveAck(t, ip, stamp), n, r.nbs[n])
  {
    var i := r.iface;
    var j := i.ReceiveAck(t, ip, stamp);
    var nb := r.nbs[n];
    if t in i.buffer && i.bootTime == nb.myBootTime {
      assert R.TreeInv(i, t, i.buffer[t]);
      AckEffect(i.buffer[t], i.neighbors, ip, stamp, n);
      forall p | p in sent && Relevant(p, n) && About(p, at, i.bootTime, p.msg.tree, n) && p.msg.stamp.sn > nb.mySn
        ensures j.Of(p.msg.tree).Pending(n) || (nb.neighborSn != 0 && Has(got, Adopted(n, nb), p.msg.tree, p.msg.stamp.sn))
      {
        if p.msg.tree == t && i.buffer[t].Pending(n) && !j.buffer[t].Pending(n) {
          OwedIsCurrent(sent, at, r, t, n);
          assert LatestOwed(sent, at, i.bootTime, t, i.buffer[t], n);
          assert p.msg.stamp.sn <= Owed(i.buffer[t], n).stamp.sn <= stamp.sn;
        }
      }
    }
  }

  // ----- Snapshots -----

  /** What the interface is after it took a snapshot for `peer`. */
  function Snapped(i: Iface, peer: Ip, clock: nat): Iface {
    var j := i.Tick(clock);
    j.StartSynchronization(peer, j.Now())
  }

  lemma SnapshotOwesLess(i: Iface, peer: Ip, clock: nat, t: Tree)
    requires R.Inv(i) && t in i.buffer
    ensures t in Snapped(i, peer, clock).buffer && OwesLess(i, Snapped(i, peer, clock), t)
    ensures forall n :: n in i.neighbors && n != peer && Snapped(i, peer, clock).bootTime == i.bootTime && i.buffer[t].Pending(n)
              && clock > i.bootTime
              ==> Snapped(i, peer, clock).buffer[t].Pending(n)
  {
    var j := i.Tick(clock);
    var k := Snapped(i, peer, clock);
    assert R.TreeInv(i, t, i.buffer[t]);
    forall n ensures k.buffer[t].Pending(n) ==> i.buffer[t].Pending(n) && Owed(k.buffer[t], n) == Owed(i.buffer[t], n)
      ensures n in i.neighbors && n != peer && k.bootTime == i.bootTime && i.buffer[t].Pending(n) && clock > i.bootTime
              ==> k.buffer[t].Pending(n)
    {
      AckEffect(j.buffer[t], j.neighbors, peer, j.Now(), n);
    }
  }

  lemma SnapshotKeepsFlight(sent: set<Packet>, at: Ip, r: Router, peer: Ip, clock: nat, nb: Nb)
    requires RouterFlightOk(sent, at, r) && clock > r.iface.bootTime && peer in r.nbs
    ensures RouterFlightOk(sent, at, r.(iface := Snapped(r.iface, peer, clock), nbs := r.nbs[peer := nb]))
  {
    var i := r.iface;
    var j := Snapped(i, peer, clock);
    var q := r.(iface := j, nbs := r.nbs[peer := nb]);
    R.NextKeepsInv(i, R.Synchronize(peer, clock));
    assert q.iface.neighbors == q.nbs.Keys;
    forall t, n | t in j.buffer && j.buffer[t].Pending(n) ensures LatestOwed(sent, at, j.bootTime, t, j.buffer[t], n) {
      SnapshotOwesLess(i, peer, clock, t);
      if j.bootTime == i.bootTime {
        assert LatestOwed(sent, at, i.bootTime, t, i.buffer[t], n);
      } else {
        NothingInFlightAfterWrap(i, peer, clock, t);
        assert false;
      }
    }
  }

  /** Nothing older than the snapshot stays owed to the neighbour it was taken for. */
  lemma SnapshotClears(i: Iface, peer: Ip, clock: nat, t: Tree)
    requires R.Inv(i) && clock > i.bootTime && t in Snapped(i, peer, clock).buffer
    ensures !Snapped(i, peer, clock).buffer[t].Pending(peer)
  {
    assert R.TreeInv(i, t, i.buffer[t]);
  }

  lemma NothingInFlightAfterWrap(i: Iface, peer: Ip, clock: nat, t: Tree)
    requires t in i.buffer && i.sequencer + 1 == MAX_SEQUENCE_NUMBER
    ensures t in Snapped(i, peer, clock).buffer && Snapped(i, peer, clock).buffer[t].Idle()
  {
  }

  /** A snapshot taken for one neighbour leaves the debts to the others alone. */
  lemma SnapshotKeepsSettled(sent: set<Packet>, got: map<AdjId, map<Tree, nat>>, got2: map<AdjId, map<Tree, nat>>,
                             at: Ip, r: Router, peer: Ip, clock: nat, n: Ip)
    requires RouterFlightOk(sent, at, r) && clock > r.iface.bootTime
    requires n in r.nbs && n != peer && NbSettled(sent, got, at, r.iface, n, r.nbs[n])
    requires r.nbs[n].myBootTime <= r.iface.bootTime
    requires forall a, t, sn :: Has(got, a, t, sn) ==> Has(got2, a, t, sn)
    ensures NbSettled(sent, got2, at, Snapped(r.iface, peer, clock), n, r.nbs[n])
  {
    var i := r.iface;
    var j := Snapped(i, peer, clock);
    var nb := r.nbs[n];
    if j.bootTime == nb.myBootTime {
      assert j.bootTime == i.bootTime;
      forall p | p in sent && Relevant(p, n) && About(p, at, j.bootTime, p.msg.tree, n) && p.msg.stamp.sn > nb.mySn
        ensures j.Of(p.msg.tree).Pending(n) || (nb.neighborSn != 0 && Has(got2, Adopted(n, nb), p.msg.tree, p.msg.stamp.sn))
      {
        if i.Of(p.msg.tree).Pending(n) {
          SnapshotOwesLess(i, peer, clock, p.msg.tree);
        }
      }
    }
  }

  // ----- Sends -----

  ghost predicate SentByNow(sent: set<Packet>, at: Ip, now: Stamp) {
    forall p :: p in sent && p.Reliable? && p.src == at ==> AtMost(p.msg.stamp, now)
  }

  lemma AnnounceShape(i: Iface, t: Tree, kind: Kind, clock: nat)
    requires R.Inv(i) && clock > i.bootTime
    ensures var j := i.SendMulticast(t, kind, clock);
            && j.neighbors == i.neighbors && j.bootTime >= i.bootTime && Before(i.Now(), j.Now()) && j.sequencer >= 1
            && t in j.buffer && j.buffer[t] == IDLE.Multicast(Msg(j.Now(), t, kind))
            && (forall u :: u in j.buffer && u != t ==> u in i.buffer && (j.buffer[u] == i.buffer[u] || j.buffer[u] == IDLE))
            && (j.bootTime == i.bootTime ==> forall u :: u != t ==> j.Of(u) == i.Of(u))
            && (j.bootTime != i.bootTime ==> forall u :: u in j.buffer && u != t ==> j.buffer[u] == IDLE)
  {
  }

  lemma AnnounceKeepsFlight(sent: set<Packet>, at: Ip, r: Router, t: Tree, metric: Option<Metric>, clock: nat)
    requires RouterFlightOk(sent, at, r) && clock > r.iface.bootTime && SentByNow(sent, at, r.iface.Now())
    ensures var (q, p) := AfterAnnounce(r, at, t, metric, clock); RouterFlightOk(sent + {p}, at, q)
  {
    var (q, p) := AfterAnnounce(r, at, t, metric, clock);
    AnnounceShape(r.iface, t, p.msg.kind, clock);
    R.NextKeepsInv(r.iface, R.Announce(t, p.msg.kind, clock));
    forall u, n | u in q.iface.buffer && q.iface.buffer[u].Pending(n)
      ensures LatestOwed(sent + {p}, at, q.iface.bootTime, u, q.iface.buffer[u], n)
    {
      if u != t { assert LatestOwed(sent, at, r.iface.bootTime, u, r.iface.buffer[u], n); }
    }
  }

  lemma AnnounceKeepsSettled(sent: set<Packet>, got: map<AdjId, map<Tree, nat>>, at: Ip, r: Router,
                             t: Tree, metric: Option<Metric>, clock: nat, n: Ip)
    requires R.Inv(r.iface) && clock > r.iface.bootTime
    requires n in r.nbs && NbSettled(sent, got, at, r.iface, n, r.nbs[n])
    requires AtMost(Stamp(r.nbs[n].myBootTime, r.nbs[n].mySn), r.iface.Now())
    ensures var (q, p) := AfterAnnounce(r, at, t, metric, clock);
            NbSettled(sent + {p}, got, at, q.iface, n, r.nbs[n])
  {
    var (q, p) := AfterAnnounce(r, at, t, metric, clock);
    AnnounceShape(r.iface, t, p.msg.kind, clock);
  }

  lemma AnnounceKeepsTable(l: Link, at: Ip, t: Tree, metric: Option<Metric>, clock: nat)
    requires at in l.routers && RouterTableOk(l.sent, at, l.routers[at]) && StampsOk(l)
    requires R.Inv(l.routers[at].iface) && clock > l.routers[at].iface.bootTime && l.routers[at].born <= l.routers[at].iface.bootTime
    ensures var (q, p) := AfterAnnounce(l.routers[at], at, t, metric, clock); RouterTableOk(l.sent + {p}, at, q)
  {
    var r := l.routers[at];
    var (q, p) := AfterAnnounce(r, at, t, metric, clock);
    AnnounceShape(r.iface, t, p.msg.kind, clock);
    assert Says(p, at, r.born, t);
    forall x | x in l.sent + {p} && Last(l.sent + {p}, at, r.born, x) && x.to == None
      ensures Get(q.table, x.msg.tree) == Effect(x.msg.kind)
    {
      if x != p {
        assert SentOk(l, x);
        assert Last(l.sent, at, r.born, x);
      }
    }
  }

  lemma SignalShape(i: Iface, t: Tree, kind: Kind, dst: Ip, clock: nat)
    requires R.Inv(i) && clock > i.bootTime
    ensures var j := i.SendUnicast(t, kind, dst, clock);
            && j.neighbors == i.neighbors && j.bootTime >= i.bootTime && Before(i.Now(), j.Now()) && j.sequencer >= 1
            && t in j.buffer && j.buffer[t].Pending(dst) && Owed(j.buffer[t], dst) == Msg(j.Now(), t, kind)
            && (forall u :: u in j.buffer && u != t ==> u in i.buffer && (j.buffer[u] == i.buffer[u] || j.buffer[u] == IDLE))
            && (j.bootTime == i.bootTime ==> forall u :: u != t ==> j.Of(u) == i.Of(u))
            && (j.bootTime != i.bootTime ==> forall u :: u in j.buffer && u != t ==> j.buffer[u] == IDLE)
            && SignalOthers(i, j, t, dst)
  {
  }

  ghost predicate SignalOthers(i: Iface, j: Iface, t: Tree, dst: Ip)
    requires t in j.buffer
  {
    forall n :: n != dst ==>
      && (j.buffer[t].Pending(n) ==> j.bootTime == i.bootTime && i.Of(t).Pending(n) && Owed(j.buffer[t], n) == Owed(i.Of(t), n))
      && (j.bootTime == i.bootTime && i.Of(t).Pending(n) ==> j.buffer[t].Pending(n))
  }

  lemma SignalKeepsFlight(sent: set<Packet>, at: Ip, r: Router, t: Tree, interested: bool, to: Ip, clock: nat)
    requires RouterFlightOk(sent, at, r) && clock > r.iface.bootTime && SentByNow(sent, at, r.iface.Now())
    ensures var (q, p) := AfterSignal(r, at, t, interested, to, clock); RouterFlightOk(sent + {p}, at, q)
  {
    var (q, p) := AfterSignal(r, at, t, interested, to, clock);
    SignalShape(r.iface, t, p.msg.kind, to, clock);
    R.NextKeepsInv(r.iface, R.Ask(t, p.msg.kind, to, clock));
    forall u, n | u in q.iface.buffer && q.iface.buffer[u].Pending(n)
      ensures LatestOwed(sent + {p}, at, q.iface.bootTime, u, q.iface.buffer[u], n)
    {
      if u != t {
        assert LatestOwed(sent, at, r.iface.bootTime, u, r.iface.buffer[u], n);
      } else if n != to {
        assert r.iface.Of(t).Pending(n);
        assert LatestOwed(sent, at, r.iface.bootTime, t, r.iface.buffer[t], n);
      }
    }
  }

  lemma SignalKeepsSettled(sent: set<Packet>, got: map<AdjId, map<Tree, nat>>, at: Ip, r: Router,
                           t: Tree, interested: bool, to: Ip, clock: nat, n: Ip)
    requires R.Inv(r.iface) && clock > r.iface.bootTime
    requires n in r.nbs && NbSettled(sent, got, at, r.iface, n, r.nbs[n])
    requires AtMost(Stamp(r.nbs[n].myBootTime, r.nbs[n].mySn), r.iface.Now())
    ensures var (q, p) := AfterSignal(r, at, t, interested, to, clock);
            NbSettled(sent + {p}, got, at, q.iface, n, r.nbs[n])
  {
    var (q, p) := AfterSignal(r, at, t, interested, to, clock);
    SignalShape(r.iface, t, p.msg.kind, to, clock);
  }

  // ----- Timers and departures -----

  lemma ExpireEffect(b: Rmt, neighbors: set<Ip>, n: Ip)
    requires b.multicast.Some? ==> b.unicast.Keys <= b.acked
    ensures var q := b.Expire(neighbors).DropFailed();
            && (q.Pending(n) ==> b.Pending(n) && Owed(q, n) == Owed(b, n))
            && (n in neighbors ==> q.Pending(n) == b.Pending(n))
  {
  }

  lemma ExpireKeepsFlight(sent: set<Packet>, at: Ip, r: Router, t: Tree)
    requires RouterFlightOk(sent, at, r)
    ensures RouterFlightOk(sent, at, Keep(r, r.iface.Expire(t)))
  {
    var q := Keep(r, r.iface.Expire(t));
    R.NextKeepsInv(r.iface, R.Expire(t));
    assert q.iface.neighbors == q.nbs.Keys;
    forall u | u in q.iface.buffer ensures OwesLess(r.iface, q.iface, u) {
      if u == t {
        assert R.TreeInv(r.iface, t, r.iface.buffer[t]);
        forall n | q.iface.buffer[t].Pending(n)
          ensures r.iface.buffer[t].Pending(n) && Owed(q.iface.buffer[t], n) == Owed(r.iface.buffer[t], n)
        {
          ExpireEffect(r.iface.buffer[t], r.iface.neighbors, n);
        }
      }
    }
    OwingLessKeepsFlight(sent, at, r, q);
  }

  lemma ExpireKeepsSettled(sent: set<Packet>, got: map<AdjId, map<Tree, nat>>, at: Ip, r: Router, t: Tree, n: Ip)
    requires RouterFlightOk(sent, at, r) && n in r.nbs && NbSettled(sent, got, at, r.iface, n, r.nbs[n])
    ensures NbSettled(sent, got, at, r.iface.Expire(t), n, r.nbs[n])
  {
    if t in r.iface.buffer {
      assert R.TreeInv(r.iface, t, r.iface.buffer[t]);
      ExpireEffect(r.iface.buffer[t], r.iface.neighbors, n);
    }
  }

  lemma LoseKeepsFlight(sent: set<Packet>, at: Ip, r: Router, peer: Ip)
    requires RouterFlightOk(sent, at, r)
    ensures RouterFlightOk(sent, at, Keep(r, r.iface.(neighbors := r.iface.neighbors - {peer})))
  {
    var q := Keep(r, r.iface.(neighbors := r.iface.neighbors - {peer}));
    R.NextKeepsInv(r.iface, R.Leave(peer));
    assert q.iface.neighbors == q.nbs.Keys;
    OwingLessKeepsFlight(sent, at, r, q);
  }
}
