/** Every step of every router keeps the invariants of the link. */
module LinkSteps {
  import opened Types
  import opened Metrics
  import opened ReliableSpec
  import R = ReliableRuns
  import opened NeighborSpec
  import opened Link
  import opened LinkInv
  import opened LinkNb
  import opened LinkFrame
  import opened LinkFlight

  lemma AdjacencyIsPast(l: Link, at: Ip, n: Ip)
    requires StampsOk(l) && at in l.routers && n in l.routers[at].nbs && NbOk(l, at, n, l.routers[at].nbs[n])
    ensures var nb := l.routers[at].nbs[n];
            && AtMost(Stamp(nb.myBootTime, nb.mySn), l.routers[at].iface.Now())
            && nb.myBootTime <= l.routers[at].iface.bootTime
  {
    assert TakenOk(l, Adjacency(at, l.routers[at].nbs[n]));
  }

  lemma AllSentByNow(l: Link, at: Ip)
    requires StampsOk(l) && at in l.routers
    ensures SentByNow(l.sent, at, l.routers[at].iface.Now())
  {
    forall p | p in l.sent && p.Reliable? && p.src == at ensures AtMost(p.msg.stamp, l.routers[at].iface.Now()) {
      assert SentOk(l, p);
    }
  }

  lemma KeptCheckpoints(l: Link, l2: Link, at: Ip, e: R.Event)
    requires at in l.routers && at in l2.routers
    requires R.Inv(l.routers[at].iface) && R.Enabled(l.routers[at].iface, e)
    requires l2.routers[at].iface == R.Next(l.routers[at].iface, e)
    ensures CheckpointsKept(l, l2, at)
  {
    var i := l.routers[at].iface;
    R.NextAdvances(i, e);
    if R.Next(i, e).bootTime == i.bootTime {
      forall c | R.Settled(i, c) ensures R.Settled(R.Next(i, e), c) { R.StepKeepsSettled(i, e, c); }
    }
  }

  lemma OldCheckpoints(l: Link, at: Ip)
    requires HellosOk(l) && at in l.routers
    ensures forall n :: n in l.routers[at].nbs && l.routers[at].nbs[n].checkpoint > 0 ==>
              CheckpointOk(l, n, l.routers[at].nbs[n].timeOfBoot, l.routers[at].nbs[n].checkpoint)
  {
  }

  /** One new reliable message, stamped with a new number. */
  lemma FreshMessageStep(l: Link, at: Ip, q: Router, p: Packet)
    requires Inv(l) && at in l.routers
    requires p.Reliable? && p.src == at && p.msg.stamp == q.iface.Now() && q.iface.sequencer >= 1
    requires p.to == None <==> p.msg.kind.IamUpstream? || p.msg.kind.IamNoLongerUpstream?
    requires Before(l.routers[at].iface.Now(), q.iface.Now())
    requires q.nbs == l.routers[at].nbs
    requires var l2 := l.(routers := l.routers[at := q], sent := l.sent + {p});
             && RouterFlightOk(l2.sent, at, q) && RouterTableOk(l2.sent, at, q) && CheckpointsKept(l, l2, at)
             && forall n :: n in q.nbs ==> NbSettled(l2.sent, l2.got, at, q.iface, n, q.nbs[n])
    ensures Inv(l.(routers := l.routers[at := q], sent := l.sent + {p}))
  {
    var l2 := l.(routers := l.routers[at := q], sent := l.sent + {p});
    forall n | n in q.nbs ensures NbOk(l2, at, n, q.nbs[n]) {
      MoreSentOk(l, l2, at, n, q.nbs[n]);
    }
    OldCheckpoints(l, at);
    assert Grows(l, l2, at);
    assert OneFresh(l, l2, at);
    StepOk(l, l2, at);
  }

  lemma AnnounceStep(l: Link, at: Ip, t: Tree, metric: Option<Metric>, clock: nat)
    requires Inv(l) && Enabled(l, Announce(at, t, metric, clock))
    ensures Inv(Next(l, Announce(at, t, metric, clock)))
  {
    var r := l.routers[at];
    var (q, p) := AfterAnnounce(r, at, t, metric, clock);
    var l2 := l.(routers := l.routers[at := q], sent := l.sent + {p});
    assert RouterOk(l, at);
    AllSentByNow(l, at);
    AnnounceShape(r.iface, t, p.msg.kind, clock);
    AnnounceKeepsFlight(l.sent, at, r, t, metric, clock);
    AnnounceKeepsTable(l, at, t, metric, clock);
    forall n | n in q.nbs ensures NbSettled(l2.sent, l2.got, at, q.iface, n, q.nbs[n]) {
      AdjacencyIsPast(l, at, n);
      AnnounceKeepsSettled(l.sent, l.got, at, r, t, metric, clock, n);
    }
    KeptCheckpoints(l, l2, at, R.Announce(t, p.msg.kind, clock));
    FreshMessageStep(l, at, q, p);
  }

  /** Nothing is announced: the table still is what was announced last. */
  lemma SameTableOk(sent: set<Packet>, sent2: set<Packet>, at: Ip, r: Router, q: Router)
    requires RouterTableOk(sent, at, r) && q.table == r.table && q.born == r.born && sent <= sent2
    requires forall p :: p in sent2 && p !in sent ==> !p.Reliable? || p.to.Some?
    ensures RouterTableOk(sent2, at, q)
  {
    forall x | x in sent2 && Last(sent2, at, r.born, x) && x.to == None ensures Get(r.table, x.msg.tree) == Effect(x.msg.kind) {
      assert Last(sent, at, r.born, x);
    }
  }

  lemma SignalStep(l: Link, at: Ip, t: Tree, interested: bool, to: Ip, clock: nat)
    requires Inv(l) && Enabled(l, Signal(at, t, interested, to, clock))
    ensures Inv(Next(l, Signal(at, t, interested, to, clock)))
  {
    var r := l.routers[at];
    var (q, p) := AfterSignal(r, at, t, interested, to, clock);
    var l2 := l.(routers := l.routers[at := q], sent := l.sent + {p});
    assert RouterOk(l, at);
    AllSentByNow(l, at);
    SignalShape(r.iface, t, p.msg.kind, to, clock);
    SignalKeepsFlight(l.sent, at, r, t, interested, to, clock);
    SameTableOk(l.sent, l2.sent, at, r, q);
    forall n | n in q.nbs ensures NbSettled(l2.sent, l2.got, at, q.iface, n, q.nbs[n]) {
      AdjacencyIsPast(l, at, n);
      SignalKeepsSettled(l.sent, l.got, at, r, t, interested, to, clock, n);
    }
    KeptCheckpoints(l, l2, at, R.Ask(t, p.msg.kind, to, clock));
    FreshMessageStep(l, at, q, p);
  }

  lemma TimerStep(l: Link, at: Ip, t: Tree)
    requires Inv(l) && at in l.routers
    ensures Inv(Next(l, RetransmissionTimer(at, t)))
  {
    var r := l.routers[at];
    var l2 := Next(l, RetransmissionTimer(at, t));
    var q := l2.routers[at];
    assert RouterOk(l, at);
    ExpireKeepsFlight(l.sent, at, r, t);
    SameTableOk(l.sent, l2.sent, at, r, q);
    forall n | n in q.nbs ensures NbOk(l2, at, n, q.nbs[n]) && NbSettled(l2.sent, l2.got, at, q.iface, n, q.nbs[n]) {
      MoreSentOk(l, l2, at, n, q.nbs[n]);
      ExpireKeepsSettled(l.sent, l.got, at, r, t, n);
    }
    KeptCheckpoints(l, l2, at, R.Expire(t));
    OldCheckpoints(l, at);
    StepOk(l, l2, at);
  }

  lemma LoseStep(l: Link, at: Ip, peer: Ip)
    requires Inv(l) && at in l.routers
    ensures Inv(Next(l, LoseNeighbor(at, peer)))
  {
    var r := l.routers[at];
    var l2 := Next(l, LoseNeighbor(at, peer));
    var q := l2.routers[at];
    assert RouterOk(l, at);
    LoseKeepsFlight(l.sent, at, r, peer);
    SameTableOk(l.sent, l2.sent, at, r, q);
    forall n | n in q.nbs ensures NbOk(l2, at, n, q.nbs[n]) && NbSettled(l2.sent, l2.got, at, q.iface, n, q.nbs[n]) {
      MoreSentOk(l, l2, at, n, q.nbs[n]);
    }
    KeptCheckpoints(l, l2, at, R.Leave(peer));
    OldCheckpoints(l, at);
    StepOk(l, l2, at);
  }

  lemma ForgetOk(l: Link, at: Ip, peer: Ip, nb: Nb, t: Tree)
    requires NbOk(l, at, peer, nb)
    ensures NbOk(l, at, peer, nb.(interest := nb.interest - {t}))
  {
    var r := nb.(interest := nb.interest - {t});
    assert Adjacency(at, r) == Adjacency(at, nb) && Adopted(peer, r) == Adopted(peer, nb);
    if nb.neighborSn != 0 {
      var s := l.snaps[Adopted(peer, nb)];
      var got := l.got[Adjacency(at, nb)];
      forall u | u in got
        ensures exists kind :: Said(l.sent, peer, at, Msg(Stamp(r.timeOfBoot, got[u]), u, kind)) && Holds(r, u, kind)
      {
        var kind :| Said(l.sent, peer, at, Msg(Stamp(nb.timeOfBoot, got[u]), u, kind)) && Holds(nb, u, kind);
        assert Holds(r, u, kind);
      }
      assert Replays(l.sent, at, peer, r, nb.syncSn, s, got);
    }
  }

  lemma ForgetStep(l: Link, at: Ip, t: Tree)
    requires Inv(l) && at in l.routers
    ensures Inv(Next(l, ForgetInterest(at, t)))
  {
    var r := l.routers[at];
    var l2 := Next(l, ForgetInterest(at, t));
    var q := l2.routers[at];
    assert RouterOk(l, at);
    assert q.nbs.Keys == r.nbs.Keys;
    SameTableOk(l.sent, l2.sent, at, r, q);
    assert RouterFlightOk(l2.sent, at, q) by {
      OwingLessKeepsFlight(l.sent, at, r, q);
    }
    forall n | n in q.nbs ensures NbOk(l2, at, n, q.nbs[n]) && NbSettled(l2.sent, l2.got, at, q.iface, n, q.nbs[n]) {
      ForgetOk(l, at, n, r.nbs[n], t);
      MoreSentOk(l, l2, at, n, q.nbs[n]);
    }
    OldCheckpoints(l, at);
    StepOk(l, l2, at);
  }

  lemma HelloStep(l: Link, at: Ip, c: nat)
    requires Inv(l) && Enabled(l, SayHello(at, c))
    ensures Inv(Next(l, SayHello(at, c)))
  {
    var r := l.routers[at];
    var l2 := Next(l, SayHello(at, c));
    assert RouterOk(l, at);
    SameTableOk(l.sent, l2.sent, at, r, r);
    assert RouterFlightOk(l2.sent, at, r) by { MoreSentKeepsFlight(l.sent, l2.sent, at, r); }
    forall n | n in r.nbs ensures NbOk(l2, at, n, r.nbs[n]) && NbSettled(l2.sent, l2.got, at, r.iface, n, r.nbs[n]) {
      MoreSentOk(l, l2, at, n, r.nbs[n]);
    }
    OldCheckpoints(l, at);
    StepOk(l, l2, at);
  }

  lemma MoreSentKeepsFlight(sent: set<Packet>, sent2: set<Packet>, at: Ip, r: Router)
    requires RouterFlightOk(sent, at, r) && sent <= sent2 && forall p :: p in sent2 && p !in sent ==> !p.Reliable?
    ensures RouterFlightOk(sent2, at, r)
  {
    forall t, n | t in r.iface.buffer && r.iface.buffer[t].Pending(n)
      ensures LatestOwed(sent2, at, r.iface.bootTime, t, r.iface.buffer[t], n)
    {
      assert LatestOwed(sent, at, r.iface.bootTime, t, r.iface.buffer[t], n);
    }
  }

  lemma RestartRouterOk(l: Link, l2: Link, at: Ip, clock: nat, table: map<Tree, Metric>)
    requires StampsOk(l) && at in l.routers && clock > l.routers[at].iface.bootTime
    requires l2 == l.(routers := l.routers[at := Router(Iface(clock, 0, {}, map[]), map[], table, clock)])
    ensures RouterOk(l2, at)
  {
    forall x | x in l.sent && x.Reliable? && x.src == at ensures x.msg.stamp.bootTime < clock {
      assert SentOk(l, x);
    }
    forall a | a in l.snaps && a.router == at ensures a.stamp.bootTime < clock {
      assert TakenOk(l, a);
    }
  }

  lemma RestartGrows(l: Link, l2: Link, at: Ip, clock: nat, table: map<Tree, Metric>)
    requires at in l.routers && clock > l.routers[at].iface.bootTime
    requires l2 == l.(routers := l.routers[at := Router(Iface(clock, 0, {}, map[]), map[], table, clock)])
    ensures Grows(l, l2, at) && OneFresh(l, l2, at) && CheckpointsKept(l, l2, at)
  {
  }

  lemma RestartStep(l: Link, at: Ip, clock: nat, table: map<Tree, Metric>)
    requires Inv(l) && Enabled(l, Restart(at, clock, table))
    ensures Inv(Next(l, Restart(at, clock, table)))
  {
    var l2 := Next(l, Restart(at, clock, table));
    RestartRouterOk(l, l2, at, clock, table);
    RestartGrows(l, l2, at, clock, table);
    StepOk(l, l2, at);
  }
}
