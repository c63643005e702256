/** A step of one router leaves every other router's invariants alone, because histories only
    grow and only under the name of the router that acts. */
module LinkFrame {
  import opened Types
  import opened ReliableSpec
  import R = ReliableRuns
  import opened NeighborSpec
  import opened Link
  import opened LinkInv
  import opened LinkNb

  ghost predicate Grows(l: Link, l2: Link, at: Ip) {
    && at in l.routers && at in l2.routers
    && l2.routers == l.routers[at := l2.routers[at]]
    && l.sent <= l2.sent
    && (forall p :: p in l2.sent && p !in l.sent ==> p.src == at)
    && (forall a :: a in l.snaps ==> a in l2.snaps && l2.snaps[a] == l.snaps[a])
    && (forall a :: a in l2.snaps && a !in l.snaps ==> a.router == at)
    && (forall a :: a in l.got ==> a in l2.got && (a.router != at ==> l2.got[a] == l.got[a]))
    && (forall a, t, sn :: Has(l.got, a, t, sn) ==> Has(l2.got, a, t, sn))
  }

  /** What is new since `l` has the stamp the router now stands at, and there is only one of it. */
  ghost predicate OneFresh(l: Link, l2: Link, at: Ip)
    requires at in l.routers && at in l2.routers
  {
    var before := l.routers[at].iface.Now();
    var now := l2.routers[at].iface.Now();
    && AtMost(before, now)
    && (forall p :: p in l2.sent && p !in l.sent && p.Reliable? ==>
          Before(before, now) && p.msg.stamp == now && SentOk(l2, p))
    && (forall p, q {:trigger SameStamp(p, q)} ::
          p in l2.sent && p !in l.sent && q in l2.sent && q !in l.sent && SameStamp(p, q) ==> p == q)
    && (forall a :: a in l2.snaps && a !in l.snaps ==> Before(before, now) && a.stamp == now && now.sn >= 1)
    && (forall a, p {:trigger Stamped(p, a)} :: a in l2.snaps && a !in l.snaps && p in l2.sent && p !in l.sent ==> !Stamped(p, a))
  }

  lemma SentStaysOk(l: Link, l2: Link, at: Ip, p: Packet)
    requires Grows(l, l2, at) && OneFresh(l, l2, at) && p.Reliable? && SentOk(l, p)
    ensures SentOk(l2, p)
    ensures p.src == at && Before(l.routers[at].iface.Now(), l2.routers[at].iface.Now())
            ==> p.msg.stamp != l2.routers[at].iface.Now()
  {
  }

  lemma TakenStaysOk(l: Link, l2: Link, at: Ip, a: AdjId)
    requires Grows(l, l2, at) && OneFresh(l, l2, at) && TakenOk(l, a)
    ensures TakenOk(l2, a)
    ensures a.router == at && Before(l.routers[at].iface.Now(), l2.routers[at].iface.Now())
            ==> a.stamp != l2.routers[at].iface.Now()
  {
  }

  lemma StampsStep(l: Link, l2: Link, at: Ip)
    requires StampsOk(l) && Grows(l, l2, at) && OneFresh(l, l2, at) && l2.got.Keys == l2.snaps.Keys
    ensures StampsOk(l2)
  {
    forall p | p in l2.sent && p.Reliable? ensures SentOk(l2, p) {
      if p in l.sent { SentStaysOk(l, l2, at, p); }
    }
    forall a | a in l2.snaps ensures TakenOk(l2, a) {
      if a in l.snaps { TakenStaysOk(l, l2, at, a); }
    }
    forall p, q | p in l2.sent && q in l2.sent && SameStamp(p, q) ensures p == q {
      if p in l.sent { SentStaysOk(l, l2, at, p); }
      if q in l.sent { SentStaysOk(l, l2, at, q); }
    }
    forall a, p | a in l2.snaps && p in l2.sent ensures !Stamped(p, a) {
      if p.Reliable? && p in l.sent { SentStaysOk(l, l2, at, p); }
      if a in l.snaps { TakenStaysOk(l, l2, at, a); }
    }
  }

  lemma AckStaysOk(l: Link, l2: Link, at: Ip, p: Packet)
    requires Grows(l, l2, at) && p.Ack? && AckOk(l, p)
    ensures AckOk(l2, p)
  {
    var boot :| AckedIn(l, p, boot);
    assert Has(l.got, AdjId(p.src, Stamp(boot, p.mySn)), p.tree, p.sn);
    assert AckedIn(l2, p, boot);
  }

  lemma FlightFrame(l: Link, l2: Link, at: Ip, r: Ip)
    requires Grows(l, l2, at) && r in l.routers && r != at && RouterFlightOk(l.sent, r, l.routers[r])
    ensures RouterFlightOk(l2.sent, r, l2.routers[r])
  {
    var q := l.routers[r];
    assert l2.routers[r] == q;
    forall t, n | t in q.iface.buffer && q.iface.buffer[t].Pending(n)
      ensures LatestOwed(l2.sent, r, q.iface.bootTime, t, q.iface.buffer[t], n)
    {
      assert LatestOwed(l.sent, r, q.iface.bootTime, t, q.iface.buffer[t], n);
    }
  }

  lemma TableFrame(l: Link, l2: Link, at: Ip, r: Ip)
    requires Grows(l, l2, at) && r in l.routers && r != at && RouterTableOk(l.sent, r, l.routers[r])
    ensures RouterTableOk(l2.sent, r, l2.routers[r])
  {
    var q := l.routers[r];
    assert l2.routers[r] == q;
    forall p | p in l2.sent && Last(l2.sent, r, q.born, p) && p.to == None
      ensures Get(q.table, p.msg.tree) == Effect(p.msg.kind)
    {
      assert Last(l.sent, r, q.born, p);
    }
  }

  lemma SettledFrame(l: Link, l2: Link, at: Ip, r: Ip, n: Ip, i: Iface, nb: Nb)
    requires Grows(l, l2, at) && r != at && NbSettled(l.sent, l.got, r, i, n, nb)
    ensures NbSettled(l2.sent, l2.got, r, i, n, nb)
  {
  }

  lemma OthersStayOk(l: Link, l2: Link, at: Ip, r: Ip)
    requires Grows(l, l2, at) && r in l.routers && r != at && RouterOk(l, r)
    ensures r in l2.routers && RouterOk(l2, r)
  {
    var q := l.routers[r];
    FlightFrame(l, l2, at, r);
    TableFrame(l, l2, at, r);
    forall n | n in q.nbs ensures NbOk(l2, r, n, q.nbs[n]) && NbSettled(l2.sent, l2.got, r, q.iface, n, q.nbs[n]) {
      MoreSentOk(l, l2, r, n, q.nbs[n]);
      SettledFrame(l, l2, at, r, n, q.iface, q.nbs[n]);
    }
  }

  /** Puts a step together: what is new is in order, the acting router is in order, and the
      CheckpointSNs it announced stay behind what it has in flight. */
  lemma StepOk(l: Link, l2: Link, at: Ip)
    requires Inv(l) && Grows(l, l2, at) && OneFresh(l, l2, at) && l2.got.Keys == l2.snaps.Keys
    requires forall p :: p in l2.sent && p !in l.sent ==>
               && (p.Sync? ==> SyncOk(l2.snaps, p)) && (p.Ack? ==> AckOk(l2, p))
               && (p.Hello? ==> CheckpointOk(l2, p.src, p.bootTime, p.checkpoint))
    requires RouterOk(l2, at)
    requires CheckpointsKept(l, l2, at)
    requires forall n :: n in l2.routers[at].nbs && l2.routers[at].nbs[n].checkpoint > 0 ==>
               CheckpointOk(l, n, l2.routers[at].nbs[n].timeOfBoot, l2.routers[at].nbs[n].checkpoint)
    ensures Inv(l2)
  {
    StampsStep(l, l2, at);
    forall p | p in l2.sent && p.Ack? ensures AckOk(l2, p) {
      if p in l.sent { AckStaysOk(l, l2, at, p); }
    }
    assert SyncsOk(l2) by {
      forall p | p in l2.sent && p.Sync? ensures SyncOk(l2.snaps, p) { }
    }
    HellosStep(l, l2, at);
    forall r | r in l2.routers ensures RouterOk(l2, r) {
      if r != at { OthersStayOk(l, l2, at, r); }
    }
  }

  ghost predicate CheckpointsKept(l: Link, l2: Link, at: Ip)
    requires at in l.routers && at in l2.routers
  {
    var i := l.routers[at].iface;
    var j := l2.routers[at].iface;
    i.bootTime <= j.bootTime && (i.bootTime == j.bootTime ==> forall c :: R.Settled(i, c) ==> R.Settled(j, c))
  }

  lemma HellosStep(l: Link, l2: Link, at: Ip)
    requires HellosOk(l) && Grows(l, l2, at) && CheckpointsKept(l, l2, at)
    requires forall p :: p in l2.sent && p !in l.sent && p.Hello? ==> CheckpointOk(l2, p.src, p.bootTime, p.checkpoint)
    requires forall n :: n in l2.routers[at].nbs && l2.routers[at].nbs[n].checkpoint > 0 ==>
               CheckpointOk(l, n, l2.routers[at].nbs[n].timeOfBoot, l2.routers[at].nbs[n].checkpoint)
    ensures HellosOk(l2)
  {
    forall p: Ip, boot: nat, c: nat | CheckpointOk(l, p, boot, c) ensures CheckpointOk(l2, p, boot, c) { }
  }
}
