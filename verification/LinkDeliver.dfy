/** Delivering a packet, old or new, once or again, keeps the invariants of the link. */
module LinkDeliver {
  import opened Types
  import opened ReliableSpec
  import R = ReliableRuns
  import opened NeighborSpec
  import opened Link
  import opened LinkInv
  import opened LinkNb
  import opened LinkFrame
  import opened LinkFlight
  import opened LinkSteps

  ghost predicate SyncsAndAcks(l: Link, at: Ip, out: set<Packet>) {
    forall p :: p in out ==>
      && p.src == at && !p.Reliable? && !p.Hello?
      && (p.Sync? ==> SyncOk(l.snaps, p)) && (p.Ack? ==> AckOk(l, p))
  }

  // ----- The interface is left alone -----

  /** The record moved on within its adjacency. */
  predicate SameAdjacency(at: Ip, peer: Ip, nb: Nb, nb2: Nb) {
    && Adjacency(at, nb2) == Adjacency(at, nb)
    && (nb.neighborSn == 0 || Adopted(peer, nb2) == Adopted(peer, nb))
  }

  lemma RecordOthersOk(l: Link, l2: Link, at: Ip, peer: Ip, n: Ip, nb: Nb, nbn: Nb)
    requires n != peer && NbOk(l, at, n, nbn) && NbOk(l, at, peer, nb)
    requires l2.snaps == l.snaps && l.sent <= l2.sent && l2.got.Keys == l.got.Keys
    requires forall a :: a in l.got && a != Adjacency(at, nb) ==> l2.got[a] == l.got[a]
    ensures NbOk(l2, at, n, nbn)
  {
    MoreSentOk(l, l2, at, n, nbn);
  }

  lemma RecordSettled(sent: set<Packet>, sent2: set<Packet>, got: map<AdjId, map<Tree, nat>>, got2: map<AdjId, map<Tree, nat>>,
                      at: Ip, i: Iface, n: Ip, nb: Nb, nb2: Nb)
    requires NbSettled(sent, got, at, i, n, nb)
    requires forall p :: p in sent2 && p !in sent ==> !p.Reliable?
    requires forall a, t, sn :: Has(got, a, t, sn) ==> Has(got2, a, t, sn)
    requires SameAdjacency(at, n, nb, nb2)
    ensures NbSettled(sent2, got2, at, i, n, nb2)
  {
  }

  lemma RecordStep(l: Link, l2: Link, at: Ip, peer: Ip, nb2: Nb, out: set<Packet>)
    requires Inv(l) && at in l.routers && peer in l.routers[at].nbs
    requires l2.routers == l.routers[at := l.routers[at].(nbs := l.routers[at].nbs[peer := nb2])]
    requires l2.snaps == l.snaps && l2.sent == l.sent + out && SyncsAndAcks(l2, at, out)
    requires l2.got.Keys == l.got.Keys
    requires forall a :: a in l.got && a != Adjacency(at, l.routers[at].nbs[peer]) ==> l2.got[a] == l.got[a]
    requires forall a, t, sn :: Has(l.got, a, t, sn) ==> Has(l2.got, a, t, sn)
    requires NbOk(l2, at, peer, nb2) && SameAdjacency(at, peer, l.routers[at].nbs[peer], nb2)
    requires nb2.checkpoint > 0 ==> CheckpointOk(l, peer, nb2.timeOfBoot, nb2.checkpoint)
    ensures Inv(l2)
  {
    assert RouterOk(l, at);
    assert OutOk(l, l2, out) by { assert l2.sent == l.sent + out; }
    RecordRouterOk(l, l2, at, peer, nb2, out);
    RecordGrows(l, l2, at, peer, nb2, out);
    RecordCheckpoints(l, l2, at, peer, nb2);
    StepOk(l, l2, at);
  }

  ghost predicate OutOk(l: Link, l2: Link, out: set<Packet>) {
    forall p :: p in l2.sent && p !in l.sent ==> p in out
  }

  lemma RecordCheckpoints(l: Link, l2: Link, at: Ip, peer: Ip, nb2: Nb)
    requires HellosOk(l) && at in l.routers && at in l2.routers && l2.routers[at].nbs == l.routers[at].nbs[peer := nb2]
    requires nb2.checkpoint > 0 ==> CheckpointOk(l, peer, nb2.timeOfBoot, nb2.checkpoint)
    ensures forall n :: n in l2.routers[at].nbs && l2.routers[at].nbs[n].checkpoint > 0 ==>
              CheckpointOk(l, n, l2.routers[at].nbs[n].timeOfBoot, l2.routers[at].nbs[n].checkpoint)
  {
    OldCheckpoints(l, at);
  }

  lemma RecordGrows(l: Link, l2: Link, at: Ip, peer: Ip, nb2: Nb, out: set<Packet>)
    requires at in l.routers && peer in l.routers[at].nbs && l.got.Keys == l.snaps.Keys
    requires l2.routers == l.routers[at := l.routers[at].(nbs := l.routers[at].nbs[peer := nb2])]
    requires l2.snaps == l.snaps && l2.sent == l.sent + out
    requires forall p :: p in out ==> p.src == at && !p.Reliable? && !p.Hello?
    requires l2.got.Keys == l.got.Keys
    requires peer in l.routers[at].nbs && forall a :: a in l.got && a != Adjacency(at, l.routers[at].nbs[peer]) ==> l2.got[a] == l.got[a]
    requires forall a, t, sn :: Has(l.got, a, t, sn) ==> Has(l2.got, a, t, sn)
    ensures Grows(l, l2, at) && OneFresh(l, l2, at) && CheckpointsKept(l, l2, at)
    ensures l2.got.Keys == l2.snaps.Keys
  {
  }

  lemma RecordRouterOk(l: Link, l2: Link, at: Ip, peer: Ip, nb2: Nb, out: set<Packet>)
    requires at in l.routers && peer in l.routers[at].nbs && RouterOk(l, at)
    requires l2.routers == l.routers[at := l.routers[at].(nbs := l.routers[at].nbs[peer := nb2])]
    requires l2.snaps == l.snaps && l2.sent == l.sent + out && forall p :: p in out ==> !p.Reliable?
    requires l2.got.Keys == l.got.Keys
    requires forall a :: a in l.got && a != Adjacency(at, l.routers[at].nbs[peer]) ==> l2.got[a] == l.got[a]
    requires forall a, t, sn :: Has(l.got, a, t, sn) ==> Has(l2.got, a, t, sn)
    requires NbOk(l2, at, peer, nb2) && SameAdjacency(at, peer, l.routers[at].nbs[peer], nb2)
    ensures RouterOk(l2, at)
  {
    var r := l.routers[at];
    var q := l2.routers[at];
    MoreSentKeepsFlight(l.sent, l2.sent, at, r);
    assert q.nbs.Keys == r.nbs.Keys;
    assert RouterFlightOk(l2.sent, at, q) by {
      OwingLessKeepsFlight(l2.sent, at, r, q);
    }
    SameTableOk(l.sent, l2.sent, at, r, q);
    forall n | n in q.nbs ensures NbOk(l2, at, n, q.nbs[n]) && NbSettled(l2.sent, l2.got, at, q.iface, n, q.nbs[n]) {
      if n != peer { RecordOthersOk(l, l2, at, peer, n, r.nbs[peer], r.nbs[n]); }
      RecordSettled(l.sent, l2.sent, l.got, l2.got, at, r.iface, n, r.nbs[n], q.nbs[n]);
    }
  }

  // ----- A snapshot is taken -----

  /** The router as the handler sees it: with a record for the sender, whatever that record says. */
  ghost predicate Prepared(l: Link, at: Ip, peer: Ip, r0: Router)
    requires at in l.routers
  {
    var r := l.routers[at];
    && RouterFlightOk(l.sent, at, r0) && peer in r0.nbs && at != peer
    && r0.table == r.table && r0.born == r.born && r0.iface == r.iface.(neighbors := r0.iface.neighbors)
    && forall n :: n in r0.nbs && n != peer ==> n in r.nbs && r0.nbs[n] == r.nbs[n]
  }

  function AfterSnapshot(l: Link, at: Ip, peer: Ip, r0: Router, env: Env, nb2: Nb, out: set<Packet>): Link {
    var a := Adjacency(at, nb2);
    Link(l.routers[at := r0.(iface := Snapped(r0.iface, peer, env.clock), nbs := r0.nbs[peer := nb2])],
         l.sent + out,
         l.snaps[a := Snap(peer, nb2.timeOfBoot, env.listing, env.fragmentation)],
         l.got[a := map[]])
  }

  lemma SnappedShape(i: Iface, peer: Ip, clock: nat)
    requires clock > i.bootTime
    ensures var j := Snapped(i, peer, clock);
            j.bootTime >= i.bootTime && Before(i.Now(), j.Now()) && j.sequencer >= 1 && j.neighbors == i.neighbors
  {
  }

  lemma SnapshotNbsOk(l: Link, l2: Link, at: Ip, n: Ip, nb: Nb, a: AdjId, s: Snap, out: set<Packet>)
    requires NbOk(l, at, n, nb) && a !in l.snaps && a !in l.got
    requires l2.snaps == l.snaps[a := s] && l2.got == l.got[a := map[]] && l2.sent == l.sent + out
    ensures NbOk(l2, at, n, nb)
  {
    MoreSentOk(l, l2, at, n, nb);
  }

  lemma SnapshotSettled(l: Link, at: Ip, r: Router, peer: Ip, clock: nat, n: Ip, a: AdjId, out: set<Packet>)
    requires RouterFlightOk(l.sent, at, r) && clock > r.iface.bootTime
    requires n in r.nbs && n != peer && NbSettled(l.sent, l.got, at, r.iface, n, r.nbs[n])
    requires r.nbs[n].myBootTime <= r.iface.bootTime
    requires a !in l.got && forall p :: p in out ==> !p.Reliable?
    ensures NbSettled(l.sent + out, l.got[a := map[]], at, Snapped(r.iface, peer, clock), n, r.nbs[n])
  {
    MoreSentKeepsFlight(l.sent, l.sent + out, at, r);
    RecordSettled(l.sent, l.sent + out, l.got, l.got, at, r.iface, n, r.nbs[n], r.nbs[n]);
    SnapshotKeepsSettled(l.sent + out, l.got, l.got[a := map[]], at, r, peer, clock, n);
  }

  lemma NewIsNew(l: Link, at: Ip, nb2: Nb)
    requires StampsOk(l) && at in l.routers && Before(l.routers[at].iface.Now(), Stamp(nb2.myBootTime, nb2.mySn))
    ensures Adjacency(at, nb2) !in l.snaps && Adjacency(at, nb2) !in l.got
  {
    forall a | a in l.snaps && a.router == at ensures AtMost(a.stamp, l.routers[at].iface.Now()) {
      assert TakenOk(l, a);
    }
  }

  lemma SnapshotRouterOk(l: Link, l2: Link, at: Ip, peer: Ip, r0: Router, env: Env, nb2: Nb, out: set<Packet>)
    requires Inv(l) && at in l.routers && Prepared(l, at, peer, r0) && EnvOk(l.routers[at], env)
    requires l2 == AfterSnapshot(l, at, peer, r0, env, nb2, out)
    requires forall p :: p in out ==> !p.Reliable?
    requires Stamp(nb2.myBootTime, nb2.mySn) == l2.routers[at].iface.Now()
    requires NbOk(l2, at, peer, nb2)
    ensures RouterOk(l2, at)
  {
    var r := l.routers[at];
    var q := l2.routers[at];
    var a := Adjacency(at, nb2);
    assert RouterOk(l, at);
    SnappedShape(r0.iface, peer, env.clock);
    NewIsNew(l, at, nb2);
    SameTableOk(l.sent, l2.sent, at, r, q);
    SnapshotKeepsFlight(l.sent, at, r0, peer, env.clock, nb2);
    MoreSentKeepsFlight(l.sent, l2.sent, at, q);
    forall n | n in q.nbs ensures NbOk(l2, at, n, q.nbs[n]) && NbSettled(l2.sent, l2.got, at, q.iface, n, q.nbs[n]) {
      if n != peer {
        AdjacencyIsPast(l, at, n);
        SnapshotNbsOk(l, l2, at, n, r.nbs[n], a, l2.snaps[a], out);
        assert NbSettled(l.sent, l.got, at, r.iface, n, r.nbs[n]);
        SnapshotSettled(l, at, r0, peer, env.clock, n, a, out);
      } else {
        NothingSaidSince(l, l2, at, r0.iface, env.clock, n, nb2);
      }
    }
  }

  lemma NothingSaidSince(l: Link, l2: Link, at: Ip, i: Iface, clock: nat, n: Ip, nb2: Nb)
    requires StampsOk(l) && at in l.routers && at in l2.routers
    requires R.Inv(i) && clock > i.bootTime && l2.routers[at].iface == Snapped(i, n, clock)
    requires forall p :: p in l2.sent && p !in l.sent ==> !p.Reliable?
    requires Stamp(nb2.myBootTime, nb2.mySn) == l2.routers[at].iface.Now()
    requires Before(l.routers[at].iface.Now(), l2.routers[at].iface.Now())
    ensures NbSettled(l2.sent, l2.got, at, l2.routers[at].iface, n, nb2)
  {
    AllSentByNow(l, at);
    forall p | p in l2.sent && p.Reliable? && p.src == at && p.msg.stamp.bootTime == l2.routers[at].iface.bootTime
      ensures p.msg.stamp.sn <= nb2.mySn
    {
    }
    forall t | t in l2.routers[at].iface.buffer ensures !l2.routers[at].iface.buffer[t].Pending(n) {
      SnapshotClears(i, n, clock, t);
    }
  }

  lemma SnapshotStep(l: Link, l2: Link, at: Ip, peer: Ip, r0: Router, env: Env, nb2: Nb, out: set<Packet>)
    requires Inv(l) && at in l.routers && Prepared(l, at, peer, r0) && EnvOk(l.routers[at], env)
    requires l2 == AfterSnapshot(l, at, peer, r0, env, nb2, out) && SyncsAndAcks(l2, at, out)
    requires Stamp(nb2.myBootTime, nb2.mySn) == l2.routers[at].iface.Now()
    requires NbOk(l2, at, peer, nb2) && nb2.checkpoint == 0
    ensures Inv(l2)
  {
    SnappedShape(r0.iface, peer, env.clock);
    NewIsNew(l, at, nb2);
    SnapshotRouterOk(l, l2, at, peer, r0, env, nb2, out);
    SnapshotCheckpoints(l, l2, at, peer, r0, env.clock);
    SnapshotGrows(l, l2, at, peer, r0, env, nb2, out);
    OldCheckpoints(l, at);
    StepOk(l, l2, at);
  }

  lemma SnapshotGrows(l: Link, l2: Link, at: Ip, peer: Ip, r0: Router, env: Env, nb2: Nb, out: set<Packet>)
    requires at in l.routers && l.got.Keys == l.snaps.Keys
    requires l2 == AfterSnapshot(l, at, peer, r0, env, nb2, out)
    requires Adjacency(at, nb2) !in l.snaps && Stamp(nb2.myBootTime, nb2.mySn) == l2.routers[at].iface.Now() && nb2.mySn >= 1
    requires Before(l.routers[at].iface.Now(), l2.routers[at].iface.Now())
    requires forall p :: p in out ==> p.src == at && !p.Reliable? && !p.Hello?
    ensures Grows(l, l2, at) && OneFresh(l, l2, at)
    ensures l2.got.Keys == l2.snaps.Keys
  {
  }

  lemma SnapshotCheckpoints(l: Link, l2: Link, at: Ip, peer: Ip, r0: Router, clock: nat)
    requires at in l.routers && at in l2.routers && R.Inv(r0.iface) && clock > r0.iface.bootTime
    requires r0.iface == l.routers[at].iface.(neighbors := r0.iface.neighbors)
    requires l2.routers[at].iface == Snapped(r0.iface, peer, clock)
    ensures CheckpointsKept(l, l2, at)
  {
    var i := l.routers[at].iface;
    var e := R.Synchronize(peer, clock);
    R.NextAdvances(r0.iface, e);
    if R.Next(r0.iface, e).bootTime == i.bootTime {
      forall c | R.Settled(i, c) ensures R.Settled(R.Next(r0.iface, e), c) {
        assert R.Settled(r0.iface, c) by {
          forall m | R.InFlight(r0.iface, m) ensures c < m.stamp.sn {
            var t :| t in r0.iface.buffer && R.Carries(r0.iface.buffer[t], m);
            assert t in i.buffer && R.Carries(i.buffer[t], m);
            assert R.InFlight(i, m);
          }
        }
        R.StepKeepsSettled(r0.iface, e, c);
      }
    }
  }

  // ----- Which of the two a handler is -----

  function WithRecord(r: Router, peer: Ip, nb: Nb): Router {
    r.(iface := r.iface.(neighbors := r.iface.neighbors + {peer}), nbs := r.nbs[peer := nb])
  }

  lemma PreparedByRecord(l: Link, at: Ip, peer: Ip, nb: Nb)
    requires Inv(l) && at in l.routers && at != peer
    ensures Prepared(l, at, peer, WithRecord(l.routers[at], peer, nb))
  {
    var r := l.routers[at];
    var q := WithRecord(r, peer, nb);
    assert RouterOk(l, at);
    R.NextKeepsInv(r.iface, R.Join(peer));
    OwingLessKeepsFlight(l.sent, at, r, q);
  }

  /** A record fresh from a reset, in a history that knows the snapshot it was reset with. */
  lemma FreshRecordOk(l: Link, at: Ip, peer: Ip, nb: Nb)
    requires at != peer && nb.state in {Slave, Master}
    requires nb == nb.Forget() && nb.fragmentation >= 1
    requires var a := Adjacency(at, nb);
             && a in l.snaps && a in l.got && l.got[a] == map[]
             && l.snaps[a].peer == peer && l.snaps[a].peerBoot == nb.timeOfBoot
             && l.snaps[a].listing == nb.myTable && l.snaps[a].fragmentation == nb.fragmentation
    ensures NbCore(l, at, peer, nb)
  {
  }

  lemma DeliverIsSnapshot(l: Link, at: Ip, p: Packet, env: Env, r0: Router, o: Outcome)
    requires at in l.routers && !Dropped(l.routers[at], p) && Handle(l.routers[at], at, p, env) == o && !o.delivered
    requires o.end.peer == p.src && o.end.iface == Snapped(r0.iface, p.src, env.clock)
    requires r0.table == l.routers[at].table && r0.born == l.routers[at].born
    requires forall n :: n != p.src ==> (n in r0.nbs <==> n in l.routers[at].nbs) && (n in r0.nbs ==> r0.nbs[n] == l.routers[at].nbs[n])
    requires Adjacency(at, o.end.nb) !in l.snaps && Adjacency(at, o.end.nb) !in l.got
    ensures AfterDeliver(l, at, p, env) == AfterSnapshot(l, at, p.src, r0, env, o.end.nb, ToSet(o.out))
  {
    assert l.routers[at].nbs[p.src := o.end.nb] == r0.nbs[p.src := o.end.nb];
  }

  lemma ResetShape(e: End, boot: nat, env: Env)
    ensures var o := e.Reset(boot, env);
            && o.end.me == e.me && o.end.peer == e.peer && o.end.iface == Snapped(e.iface, e.peer, env.clock)
            && !o.delivered && o.out == [o.end.SyncPacket(0, true)]
            && o.end.nb == o.end.nb.Forget() && o.end.nb.state == Slave && o.end.nb.timeOfBoot == boot
            && o.end.nb.myTable == env.listing && o.end.nb.fragmentation == env.fragmentation
            && Stamp(o.end.nb.myBootTime, o.end.nb.mySn) == o.end.iface.Now()
  {
  }

  /** After a snapshot the outcome of a handler is in step with its history. */
  lemma SnapshotOutcomeStep(l: Link, at: Ip, p: Packet, env: Env, r0: Router, o: Outcome)
    requires Inv(l) && at in l.routers && EnvOk(l.routers[at], env) && !Dropped(l.routers[at], p)
    requires Handle(l.routers[at], at, p, env) == o && !o.delivered
    requires Prepared(l, at, p.src, r0) && r0.nbs.Keys == l.routers[at].nbs.Keys + {p.src}
    requires o.end.peer == p.src && o.end.iface == Snapped(r0.iface, p.src, env.clock)
    requires Stamp(o.end.nb.myBootTime, o.end.nb.mySn) == o.end.iface.Now() && o.end.nb.checkpoint == 0
    requires var l2 := AfterSnapshot(l, at, p.src, r0, env, o.end.nb, ToSet(o.out));
             SyncsAndAcks(l2, at, ToSet(o.out)) && NbOk(l2, at, p.src, o.end.nb)
    ensures Inv(AfterDeliver(l, at, p, env))
  {
    SnappedShape(r0.iface, p.src, env.clock);
    NewIsNew(l, at, o.end.nb);
    DeliverIsSnapshot(l, at, p, env, r0, o);
    SnapshotStep(l, AfterDeliver(l, at, p, env), at, p.src, r0, env, o.end.nb, ToSet(o.out));
  }

  lemma ResetStep(l: Link, at: Ip, p: Packet, env: Env, nb: Nb, boot: nat)
    requires Inv(l) && at in l.routers && EnvOk(l.routers[at], env) && at != p.src
    requires !Dropped(l.routers[at], p)
    requires Handle(l.routers[at], at, p, env)
             == End(at, p.src, WithRecord(l.routers[at], p.src, nb).iface, nb).Reset(boot, env)
    ensures Inv(AfterDeliver(l, at, p, env))
  {
    var r0 := WithRecord(l.routers[at], p.src, nb);
    var e := End(at, p.src, r0.iface, nb);
    var o := e.Reset(boot, env);
    PreparedByRecord(l, at, p.src, nb);
    ResetShape(e, boot, env);
    ResetOutcomeOk(l, at, p.src, env, r0, o);
    SnapshotOutcomeStep(l, at, p, env, r0, o);
  }

  lemma ResetOutcomeOk(l: Link, at: Ip, peer: Ip, env: Env, r0: Router, o: Outcome)
    requires at != peer && env.fragmentation >= 1
    requires o.end.me == at && o.end.peer == peer && o.out == [o.end.SyncPacket(0, true)]
    requires o.end.nb == o.end.nb.Forget() && o.end.nb.state == Slave
    requires o.end.nb.myTable == env.listing && o.end.nb.fragmentation == env.fragmentation
    ensures var l2 := AfterSnapshot(l, at, peer, r0, env, o.end.nb, ToSet(o.out));
            SyncsAndAcks(l2, at, ToSet(o.out)) && NbOk(l2, at, peer, o.end.nb)
  {
    var l2 := AfterSnapshot(l, at, peer, r0, env, o.end.nb, ToSet(o.out));
    FreshRecordOk(l2, at, peer, o.end.nb);
    SyncPacketOk(l2, o.end, 0, true);
  }

  lemma MeetShape(e: End, env: Env)
    ensures var f := e.(nb := e.nb.(state := Master)).StartSnapshot(env);
            var g := f.(nb := f.nb.Forget());
            && g.me == e.me && g.peer == e.peer && g.iface == Snapped(e.iface, e.peer, env.clock)
            && g.nb == g.nb.Forget() && g.nb.state == Master && g.nb.timeOfBoot == e.nb.timeOfBoot
            && g.nb.myTable == env.listing && g.nb.fragmentation == env.fragmentation
            && Stamp(g.nb.myBootTime, g.nb.mySn) == g.iface.Now()
  {
  }

  lemma MeetOutcomeOk(l: Link, at: Ip, p: Packet, env: Env, r0: Router, g: End, o: Outcome)
    requires Inv(l) && at in l.routers && at != p.src && env.fragmentation >= 1
    requires p in l.sent && p.Sync? && p.dst == at && p.syncSn == 0 && p.master
    requires g.me == at && g.peer == p.src && g.nb == g.nb.Forget() && g.nb.state == Master
    requires g.nb.timeOfBoot == p.bootTime && p.neighborBootTime <= g.nb.myBootTime
    requires g.nb.myTable == env.listing && g.nb.fragmentation == env.fragmentation
    requires Adjacency(at, g.nb) !in l.snaps && Adjacency(at, g.nb) !in l.got
    requires o == g.MasterSync(p, env)
    ensures var l2 := AfterSnapshot(l, at, p.src, r0, env, o.end.nb, ToSet(o.out));
            SyncsAndAcks(l2, at, ToSet(o.out)) && NbOk(l2, at, p.src, o.end.nb)
    ensures o.end == g.(nb := o.end.nb) && !o.delivered && Adjacency(at, o.end.nb) == Adjacency(at, g.nb)
  {
    // The history right after the snapshot, before the answer.
    var l1 := AfterSnapshot(l, at, p.src, r0, env, g.nb, {});
    FreshRecordOk(l1, at, p.src, g.nb);
    assert SyncOk(l.snaps, p);
    assert TakenOk(l, AdjId(p.src, Stamp(p.bootTime, p.mySn)));
    assert Fits(l1, g, p);
    MasterSyncOk(l1, g, p, env);
    MasterKeepsPeer(g, p, env);
    var l2 := AfterSnapshot(l, at, p.src, r0, env, o.end.nb, ToSet(o.out));
    assert l2.snaps == l1.snaps && l2.got == l1.got;
    MoreSentOk(l1, l2, at, p.src, o.end.nb);
  }

  lemma MasterKeepsPeer(e: End, m: Packet, env: Env)
    requires m.Sync? && !Outdated(e, m)
    ensures var o := e.MasterSync(m, env);
            o.end.nb.timeOfBoot == e.nb.timeOfBoot && o.end.nb.checkpoint == e.nb.checkpoint
  {
    InstallEffect(e.Adopt(m.mySn).nb, m.trees, Tree(0, 0));
  }

  /** The first Sync of an unknown neighbour that drives: this end takes a snapshot and answers. */
  lemma MeetStep(l: Link, at: Ip, p: Packet, env: Env)
    requires Inv(l) && at in l.routers && EnvOk(l.routers[at], env) && p in l.sent && Reaches(p, at)
    requires !Dropped(l.routers[at], p) && p.Sync? && p.src !in l.routers[at].nbs
    requires p.syncSn == 0 && p.master
    ensures Inv(AfterDeliver(l, at, p, env))
  {
    var r := l.routers[at];
    var nb := NewNb(p.bootTime, r.iface.bootTime);
    var r0 := WithRecord(r, p.src, nb);
    var e := End(at, p.src, r0.iface, nb);
    var f := e.(nb := e.nb.(state := Master)).StartSnapshot(env);
    var g := f.(nb := f.nb.Forget());
    var o := g.MasterSync(p, env);
    PreparedByRecord(l, at, p.src, nb);
    MeetShape(e, env);
    SnappedShape(r0.iface, p.src, env.clock);
    NewIsNew(l, at, g.nb);
    MeetOutcomeOk(l, at, p, env, r0, g, o);
    MasterKeepsPeer(g, p, env);
    MeetHandled(l, at, p, env);
    SnapshotOutcomeStep(l, at, p, env, r0, o);
  }

  lemma MeetHandled(l: Link, at: Ip, p: Packet, env: Env)
    requires at in l.routers && !Dropped(l.routers[at], p) && p.Sync? && p.src !in l.routers[at].nbs
    requires p.syncSn == 0 && p.master
    ensures var r0 := WithRecord(l.routers[at], p.src, NewNb(p.bootTime, l.routers[at].iface.bootTime));
            var e := End(at, p.src, r0.iface, r0.nbs[p.src]);
            var f := e.(nb := e.nb.(state := Master)).StartSnapshot(env);
            Handle(l.routers[at], at, p, env) == f.(nb := f.nb.Forget()).MasterSync(p, env)
  {
  }

  // ----- Packets of a known neighbour -----

  lemma DeliverIsRecord(l: Link, at: Ip, p: Packet, env: Env, o: Outcome)
    requires at in l.routers && !Dropped(l.routers[at], p) && p.src in l.routers[at].nbs && l.got.Keys == l.snaps.Keys
    requires Handle(l.routers[at], at, p, env) == o && o.end.peer == p.src && o.end.iface == l.routers[at].iface
    requires Adjacency(at, o.end.nb) == Adjacency(at, l.routers[at].nbs[p.src]) && Adjacency(at, o.end.nb) in l.snaps
    ensures var l2 := AfterDeliver(l, at, p, env);
            && l2.routers == l.routers[at := l.routers[at].(nbs := l.routers[at].nbs[p.src := o.end.nb])]
            && l2.snaps == l.snaps && l2.sent == l.sent + ToSet(o.out)
            && l2.got == if o.delivered && p.Reliable? then Note(l.got, Adjacency(at, o.end.nb), p.msg) else l.got
  {
  }

  lemma RecordOutcomeStep(l: Link, at: Ip, p: Packet, env: Env, o: Outcome)
    requires Inv(l) && at in l.routers && !Dropped(l.routers[at], p) && p.src in l.routers[at].nbs
    requires Handle(l.routers[at], at, p, env) == o && !o.delivered
    requires o.end.peer == p.src && o.end.iface == l.routers[at].iface
    requires SyncsAndAcks(l, at, ToSet(o.out)) && NbOk(l, at, p.src, o.end.nb)
    requires SameAdjacency(at, p.src, l.routers[at].nbs[p.src], o.end.nb)
    requires o.end.nb.checkpoint > 0 ==> CheckpointOk(l, p.src, o.end.nb.timeOfBoot, o.end.nb.checkpoint)
    ensures Inv(AfterDeliver(l, at, p, env))
  {
    var l2 := AfterDeliver(l, at, p, env);
    assert RouterOk(l, at);
    DeliverIsRecord(l, at, p, env, o);
    MoreSentOk(l, l2, at, p.src, o.end.nb);
    SameHistory(l, l2, at, ToSet(o.out));
    RecordStep(l, l2, at, p.src, o.end.nb, ToSet(o.out));
  }

  lemma SameHistory(l: Link, l2: Link, at: Ip, out: set<Packet>)
    requires SyncsAndAcks(l, at, out) && l2.snaps == l.snaps && l2.got == l.got
    ensures SyncsAndAcks(l2, at, out)
  {
    forall p | p in out && p.Ack? ensures AckOk(l2, p) {
      var boot :| AckedIn(l, p, boot);
      assert AckedIn(l2, p, boot);
    }
  }

  lemma KnownResetStep(l: Link, at: Ip, p: Packet, env: Env, boot: nat)
    requires Inv(l) && at in l.routers && EnvOk(l.routers[at], env) && at != p.src
    requires !Dropped(l.routers[at], p) && p.src in l.routers[at].nbs
    requires Handle(l.routers[at], at, p, env)
             == End(at, p.src, l.routers[at].iface, l.routers[at].nbs[p.src]).Reset(boot, env)
    ensures Inv(AfterDeliver(l, at, p, env))
  {
    var r := l.routers[at];
    assert RouterOk(l, at);
    assert r.iface.neighbors + {p.src} == r.iface.neighbors;
    ResetStep(l, at, p, env, r.nbs[p.src], boot);
  }

  lemma SyncOutcomeOk(l: Link, e: End, m: Packet, env: Env)
    requires NbOk(l, e.me, e.peer, e.nb) && Fits(l, e, m) && !Outdated(e, m)
    requires e.nb.state == Synced ==> e.nb.neighborSn != 0
    ensures var o := match e.nb.state case Master => e.MasterSync(m, env) case Slave => e.SlaveSync(m, env)
                     case Synced => e.SyncedSync(m, env) case Unknown => e.UnknownSync(m, env);
            && o.end == e.(nb := o.end.nb) && !o.delivered && SyncsSent(l, e, o)
            && NbOk(l, e.me, e.peer, o.end.nb) && SameAdjacency(e.me, e.peer, e.nb, o.end.nb)
            && o.end.nb.checkpoint == e.nb.checkpoint && o.end.nb.timeOfBoot == e.nb.timeOfBoot
  {
    match e.nb.state
    case Master => MasterSyncOk(l, e, m, env); MasterKeepsPeer(e, m, env);
    case Slave => SlaveSyncOk(l, e, m, env); SlaveKeepsPeer(l, e, m, env);
    case Synced => SyncedSyncOk(l, e, m, env);
  }

  lemma SlaveKeepsPeer(l: Link, e: End, m: Packet, env: Env)
    requires m.Sync? && !Outdated(e, m)
    ensures var o := e.SlaveSync(m, env);
            o.end.nb.timeOfBoot == e.nb.timeOfBoot && o.end.nb.checkpoint == e.nb.checkpoint
  {
    var f := e.Adopt(m.mySn);
    InstallEffect(f.nb.(syncSn := f.nb.syncSn + 1), m.trees, Tree(0, 0));
    if f.nb.neighborSn == m.mySn {
      MasterKeepsPeer(f.(nb := f.nb.(state := Master, syncSn := 0)), m, env);
    }
  }

  lemma KnownSyncStep(l: Link, at: Ip, p: Packet, env: Env)
    requires Inv(l) && at in l.routers && EnvOk(l.routers[at], env) && p in l.sent && Reaches(p, at)
    requires !Dropped(l.routers[at], p) && p.Sync? && p.src in l.routers[at].nbs
    ensures Inv(AfterDeliver(l, at, p, env))
  {
    var r := l.routers[at];
    var e := End(at, p.src, r.iface, r.nbs[p.src]);
    var nb := e.nb;
    RecordFacts(l, at, p.src);
    assert SyncOk(l.snaps, p);
    assert TakenOk(l, AdjId(p.src, Stamp(p.bootTime, p.mySn)));
    if p.bootTime < nb.timeOfBoot {
      RecordOutcomeStep(l, at, p, env, e.Quiet());
    } else if p.bootTime > nb.timeOfBoot || p.neighborBootTime > nb.myBootTime {
      KnownResetStep(l, at, p, env, p.bootTime);
    } else if Outdated(e, p) {
      OutdatedResets(e, p, env);
      KnownResetStep(l, at, p, env, nb.timeOfBoot);
    } else {
      KnownSyncOutcome(l, at, p, env);
    }
  }

  lemma OutdatedResets(e: End, m: Packet, env: Env)
    requires m.Sync? && Outdated(e, m) && e.nb.state != Unknown
    requires m.bootTime == e.nb.timeOfBoot && m.neighborBootTime <= e.nb.myBootTime
    ensures e.Receive(m, env) == e.Reset(e.nb.timeOfBoot, env)
  {
  }

  lemma KnownSyncOutcome(l: Link, at: Ip, p: Packet, env: Env)
    requires Inv(l) && at in l.routers && p.Sync? && p.src in l.routers[at].nbs && !Dropped(l.routers[at], p)
    requires var e := End(at, p.src, l.routers[at].iface, l.routers[at].nbs[p.src]); Fits(l, e, p) && !Outdated(e, p)
    ensures Inv(AfterDeliver(l, at, p, env))
  {
    var e := End(at, p.src, l.routers[at].iface, l.routers[at].nbs[p.src]);
    var o := e.Receive(p, env);
    RecordFacts(l, at, p.src);
    SyncOutcomeOk(l, e, p, env);
    RecordOutcomeStep(l, at, p, env, o);
  }

  lemma KnownHelloStep(l: Link, at: Ip, p: Packet, env: Env)
    requires Inv(l) && at in l.routers && EnvOk(l.routers[at], env) && p in l.sent && Reaches(p, at)
    requires p.Hello? && p.src in l.routers[at].nbs
    ensures Inv(AfterDeliver(l, at, p, env))
  {
    var r := l.routers[at];
    var e := End(at, p.src, r.iface, r.nbs[p.src]);
    RecordFacts(l, at, p.src);
    if p.bootTime > e.nb.timeOfBoot {
      KnownResetStep(l, at, p, env, p.bootTime);
    } else {
      if p.bootTime == e.nb.timeOfBoot && e.nb.state == Synced { HelloOk(l, e, p.checkpoint); }
      RecordOutcomeStep(l, at, p, env, e.ReceiveHello(p, env));
    }
  }

  lemma KnownReliableStep(l: Link, at: Ip, p: Packet, env: Env)
    requires Inv(l) && at in l.routers && EnvOk(l.routers[at], env) && p in l.sent && Reaches(p, at)
    requires p.Reliable? && p.src in l.routers[at].nbs
    ensures Inv(AfterDeliver(l, at, p, env))
  {
    var r := l.routers[at];
    var e := End(at, p.src, r.iface, r.nbs[p.src]);
    RecordFacts(l, at, p.src);
    assert SentOk(l, p);
    if p.msg.stamp.bootTime > e.nb.timeOfBoot {
      KnownResetStep(l, at, p, env, p.msg.stamp.bootTime);
    } else if p.msg.stamp.bootTime < e.nb.timeOfBoot {
      RecordOutcomeStep(l, at, p, env, e.Quiet());
    } else {
      CurrentReliableStep(l, at, p, env);
    }
  }

  lemma CurrentReliableStep(l: Link, at: Ip, p: Packet, env: Env)
    requires Inv(l) && at in l.routers && p in l.sent && Reaches(p, at)
    requires p.Reliable? && p.src in l.routers[at].nbs && p.msg.stamp.bootTime == l.routers[at].nbs[p.src].timeOfBoot
    ensures Inv(AfterDeliver(l, at, p, env))
  {
    var e := End(at, p.src, l.routers[at].iface, l.routers[at].nbs[p.src]);
    var o := e.ReceiveReliable(p, env);
    if o.delivered {
      DeliveredStep(l, at, p, env);
    } else {
      RecordFacts(l, at, p.src);
      assert SentOk(l, p);
      AckedIsDelivered(l, e, p, env);
      if o.out != [] {
        DuplicateAckOk(l, e, p, env);
      }
      RecordOutcomeStep(l, at, p, env, o);
    }
  }

  lemma DuplicateAckOk(l: Link, e: End, p: Packet, env: Env)
    requires NbOk(l, e.me, e.peer, e.nb) && p.Reliable? && p.msg.stamp.sn >= 1 && p.msg.stamp.bootTime == e.nb.timeOfBoot
    requires var o := e.ReceiveReliable(p, env); o.out != [] && !o.delivered
    requires e.nb.myBootTime <= e.iface.bootTime
    ensures SyncsAndAcks(l, e.me, ToSet(e.ReceiveReliable(p, env).out))
  {
    AckedIsDelivered(l, e, p, env);
    var ack := e.ReceiveReliable(p, env).out[0];
    assert AckedIn(l, ack, e.nb.myBootTime);
    assert ToSet(e.ReceiveReliable(p, env).out) == {ack};
  }

  lemma DeliveredShape(e: End, p: Packet, env: Env)
    requires p.Reliable? && e.ReceiveReliable(p, env).delivered
    ensures var o := e.ReceiveReliable(p, env);
            var m := p.msg;
            && o.end == e.(nb := e.nb.(lastSn := e.nb.lastSn[m.tree := m.stamp.sn]).Apply(m.tree, m.kind))
            && o.out == [Ack(e.me, e.peer, e.iface.bootTime, m.stamp.bootTime, m.tree, e.nb.neighborSn, e.nb.mySn, m.stamp.sn)]
            && m.stamp.bootTime == e.nb.timeOfBoot && e.nb.syncSn != 0
            && m.stamp.sn > e.nb.neighborSn && m.stamp.sn > e.nb.checkpoint && m.stamp.sn > GetOr(e.nb.lastSn, m.tree, 0)
  {
  }

  lemma NoteKeepsHas(got: map<AdjId, map<Tree, nat>>, a: AdjId, m: Msg)
    requires a in got && (m.tree in got[a] ==> got[a][m.tree] <= m.stamp.sn)
    ensures forall b, t, sn :: Has(got, b, t, sn) ==> Has(Note(got, a, m), b, t, sn)
  {
  }

  lemma DeliveredStep(l: Link, at: Ip, p: Packet, env: Env)
    requires Inv(l) && at in l.routers && p in l.sent && Reaches(p, at)
    requires p.Reliable? && p.src in l.routers[at].nbs
    requires End(at, p.src, l.routers[at].iface, l.routers[at].nbs[p.src]).ReceiveReliable(p, env).delivered
    ensures Inv(AfterDeliver(l, at, p, env))
  {
    var r := l.routers[at];
    var e := End(at, p.src, r.iface, r.nbs[p.src]);
    var m := p.msg;
    var ack := Ack(at, p.src, r.iface.bootTime, m.stamp.bootTime, m.tree, e.nb.neighborSn, e.nb.mySn, m.stamp.sn);
    var nb2 := e.nb.(lastSn := e.nb.lastSn[m.tree := m.stamp.sn]).Apply(m.tree, m.kind);
    var l2 := AfterDeliver(l, at, p, env);
    RecordFacts(l, at, p.src);
    assert SentOk(l, p);
    DeliveredShape(e, p, env);
    DeliveredLink(l, at, p, env, nb2, ack);
    DeliveredRecordStep(l, l2, at, p.src, m, ack);
  }

  lemma DeliveredRecordStep(l: Link, l2: Link, at: Ip, peer: Ip, m: Msg, ack: Packet)
    requires Inv(l) && at in l.routers && peer in l.routers[at].nbs && Said(l.sent, peer, at, m) && m.stamp.sn >= 1
    requires var nb := l.routers[at].nbs[peer];
             && nb.syncSn != 0 && m.stamp.bootTime == nb.timeOfBoot
             && m.stamp.sn > nb.neighborSn && m.stamp.sn > nb.checkpoint && m.stamp.sn > GetOr(nb.lastSn, m.tree, 0)
             && ack == Ack(at, peer, l.routers[at].iface.bootTime, m.stamp.bootTime, m.tree, nb.neighborSn, nb.mySn, m.stamp.sn)
    requires var nb := l.routers[at].nbs[peer];
             var nb2 := nb.(lastSn := nb.lastSn[m.tree := m.stamp.sn]).Apply(m.tree, m.kind);
             && l2.routers == l.routers[at := l.routers[at].(nbs := l.routers[at].nbs[peer := nb2])]
             && l2.snaps == l.snaps && l2.sent == l.sent + {ack} && l2.got == Note(l.got, Adjacency(at, nb), m)
    ensures Inv(l2)
  {
    var e := End(at, peer, l.routers[at].iface, l.routers[at].nbs[peer]);
    var nb2 := e.nb.(lastSn := e.nb.lastSn[m.tree := m.stamp.sn]).Apply(m.tree, m.kind);
    RecordFacts(l, at, peer);
    DeliveredOutcomeOk(l, l2, e, m, ack);
    NotedRecordStep(l, l2, at, peer, nb2, m, {ack});
  }

  lemma NoteKeepsOthers(got: map<AdjId, map<Tree, nat>>, a: AdjId, m: Msg)
    requires a in got
    ensures Note(got, a, m).Keys == got.Keys && forall b :: b in got && b != a ==> Note(got, a, m)[b] == got[b]
  {
  }

  lemma NotedRecordStep(l: Link, l2: Link, at: Ip, peer: Ip, nb2: Nb, m: Msg, out: set<Packet>)
    requires Inv(l) && at in l.routers && peer in l.routers[at].nbs
    requires l2.routers == l.routers[at := l.routers[at].(nbs := l.routers[at].nbs[peer := nb2])]
    requires l2.snaps == l.snaps && l2.sent == l.sent + out && SyncsAndAcks(l2, at, out)
    requires Adjacency(at, l.routers[at].nbs[peer]) in l.got
    requires l2.got == Note(l.got, Adjacency(at, l.routers[at].nbs[peer]), m)
    requires forall a, t, sn :: Has(l.got, a, t, sn) ==> Has(l2.got, a, t, sn)
    requires NbOk(l2, at, peer, nb2) && SameAdjacency(at, peer, l.routers[at].nbs[peer], nb2)
    requires nb2.checkpoint > 0 ==> CheckpointOk(l, peer, nb2.timeOfBoot, nb2.checkpoint)
    ensures Inv(l2)
  {
    NoteKeepsOthers(l.got, Adjacency(at, l.routers[at].nbs[peer]), m);
    RecordStep(l, l2, at, peer, nb2, out);
  }

  lemma RecordFacts(l: Link, at: Ip, peer: Ip)
    requires Inv(l) && at in l.routers && peer in l.routers[at].nbs
    ensures var nb := l.routers[at].nbs[peer];
            && NbOk(l, at, peer, nb) && nb.myBootTime <= l.routers[at].iface.bootTime
            && (nb.checkpoint > 0 ==> CheckpointOk(l, peer, nb.timeOfBoot, nb.checkpoint))
            && l.got.Keys == l.snaps.Keys
  {
    assert RouterOk(l, at);
    AdjacencyIsPast(l, at, peer);
    OldCheckpoints(l, at);
  }

  lemma DeliveredLink(l: Link, at: Ip, p: Packet, env: Env, nb2: Nb, ack: Packet)
    requires at in l.routers && p.src in l.routers[at].nbs && p.Reliable? && l.got.Keys == l.snaps.Keys
    requires var e := End(at, p.src, l.routers[at].iface, l.routers[at].nbs[p.src]);
             && e.ReceiveReliable(p, env) == Outcome(e.(nb := nb2), [ack], true)
             && Adjacency(at, nb2) == Adjacency(at, e.nb) && Adjacency(at, e.nb) in l.snaps
    ensures var l2 := AfterDeliver(l, at, p, env);
            && l2.routers == l.routers[at := l.routers[at].(nbs := l.routers[at].nbs[p.src := nb2])]
            && l2.snaps == l.snaps && l2.sent == l.sent + {ack}
            && l2.got == Note(l.got, Adjacency(at, l.routers[at].nbs[p.src]), p.msg)
  {
    var e := End(at, p.src, l.routers[at].iface, l.routers[at].nbs[p.src]);
    DeliverIsRecord(l, at, p, env, e.ReceiveReliable(p, env));
    assert ToSet([ack]) == {ack};
  }

  lemma DeliveredOutcomeOk(l: Link, l2: Link, e: End, m: Msg, ack: Packet)
    requires NbOk(l, e.me, e.peer, e.nb) && e.nb.syncSn != 0 && Said(l.sent, e.peer, e.me, m)
    requires m.stamp.bootTime == e.nb.timeOfBoot && e.nb.myBootTime <= e.iface.bootTime && m.stamp.sn >= 1
    requires m.stamp.sn > e.nb.neighborSn && m.stamp.sn > e.nb.checkpoint && m.stamp.sn > GetOr(e.nb.lastSn, m.tree, 0)
    requires ack == Ack(e.me, e.peer, e.iface.bootTime, m.stamp.bootTime, m.tree, e.nb.neighborSn, e.nb.mySn, m.stamp.sn)
    requires l2.snaps == l.snaps && l.sent <= l2.sent && l2.got == Note(l.got, Adjacency(e.me, e.nb), m)
    ensures var nb2 := e.nb.(lastSn := e.nb.lastSn[m.tree := m.stamp.sn]).Apply(m.tree, m.kind);
            && NbOk(l2, e.me, e.peer, nb2) && SameAdjacency(e.me, e.peer, e.nb, nb2)
            && nb2.checkpoint == e.nb.checkpoint && nb2.timeOfBoot == e.nb.timeOfBoot
    ensures SyncsAndAcks(l2, e.me, {ack})
    ensures forall b, t, sn :: Has(l.got, b, t, sn) ==> Has(l2.got, b, t, sn)
  {
    DeliveredOk(l, l2, e, m);
    NoteKeepsHas(l.got, Adjacency(e.me, e.nb), m);
    FreshAckOk(l2, e, m, ack);
  }

  lemma FreshAckOk(l2: Link, e: End, m: Msg, ack: Packet)
    requires ack == Ack(e.me, e.peer, e.iface.bootTime, m.stamp.bootTime, m.tree, e.nb.neighborSn, e.nb.mySn, m.stamp.sn)
    requires Has(l2.got, Adjacency(e.me, e.nb), m.tree, m.stamp.sn) && m.stamp.bootTime == e.nb.timeOfBoot
    requires Adopted(e.peer, e.nb) in l2.snaps && l2.snaps[Adopted(e.peer, e.nb)].peerBoot <= e.nb.myBootTime <= e.iface.bootTime
    ensures SyncsAndAcks(l2, e.me, {ack})
  {
    assert AckedIn(l2, ack, e.nb.myBootTime);
  }

  // ----- Acks -----

  /** An ack that matches this adjacency was sent from the adjacency this one adopted. */
  lemma MatchingAckIsDelivered(l: Link, e: End, a: Packet)
    requires a.Ack? && AckOk(l, a) && NbOk(l, e.me, e.peer, e.nb) && a.src == e.peer && a.dst == e.me && e.Matches(a)
    ensures e.nb.neighborSn != 0 && Has(l.got, Adopted(e.peer, e.nb), a.tree, a.sn)
  {
    var boot :| AckedIn(l, a, boot);
    assert AdjId(a.dst, Stamp(a.neighborBootTime, a.neighborSn)) == Adjacency(e.me, e.nb);
    assert boot == a.bootTime;
    assert AdjId(a.src, Stamp(boot, a.mySn)) == Adopted(e.peer, e.nb);
  }

  lemma AckedStep(l: Link, at: Ip, p: Packet, env: Env)
    requires Inv(l) && at in l.routers && p in l.sent && Reaches(p, at)
    requires p.Ack? && p.src in l.routers[at].nbs
    requires var e := End(at, p.src, l.routers[at].iface, l.routers[at].nbs[p.src]); e.nb.timeOfBoot == p.bootTime && e.Matches(p)
    ensures Inv(AfterDeliver(l, at, p, env))
  {
    RecordFacts(l, at, p.src);
    assert AckOk(l, p);
    MatchingAckIsDelivered(l, End(at, p.src, l.routers[at].iface, l.routers[at].nbs[p.src]), p);
    AckDelivered(l, at, p, env);
    AckInterfaceStep(l, at, p.tree, p.src, Stamp(p.neighborBootTime, p.sn));
  }

  lemma AckInterfaceStep(l: Link, at: Ip, t: Tree, peer: Ip, stamp: Stamp)
    requires Inv(l) && at in l.routers && peer in l.routers[at].nbs
    requires var nb := l.routers[at].nbs[peer];
             && nb.neighborSn != 0 && Has(l.got, Adopted(peer, nb), t, stamp.sn)
             && stamp.bootTime <= l.routers[at].iface.bootTime
    ensures Inv(l.(routers := l.routers[at := l.routers[at].(iface := l.routers[at].iface.ReceiveAck(t, peer, stamp))]))
  {
    var q := l.routers[at].(iface := l.routers[at].iface.ReceiveAck(t, peer, stamp));
    var l2 := l.(routers := l.routers[at := q]);
    assert RouterOk(l, at);
    AckRouterOk(l, at, t, peer, stamp);
    KeptCheckpoints(l, l2, at, R.Ack(t, peer, stamp));
    AckStepFinish(l, l2, at, q);
  }

  lemma AckRouterOk(l: Link, at: Ip, t: Tree, peer: Ip, stamp: Stamp)
    requires at in l.routers && RouterOk(l, at) && peer in l.routers[at].nbs
    requires var nb := l.routers[at].nbs[peer];
             && nb.neighborSn != 0 && Has(l.got, Adopted(peer, nb), t, stamp.sn)
             && stamp.bootTime <= l.routers[at].iface.bootTime
    ensures var q := l.routers[at].(iface := l.routers[at].iface.ReceiveAck(t, peer, stamp));
            RouterOk(l.(routers := l.routers[at := q]), at)
  {
    var r := l.routers[at];
    var q := r.(iface := r.iface.ReceiveAck(t, peer, stamp));
    var l2 := l.(routers := l.routers[at := q]);
    AckKeepsFlight(l.sent, at, r, t, peer, stamp);
    SameTableOk(l.sent, l2.sent, at, r, q);
    forall n | n in q.nbs ensures NbOk(l2, at, n, q.nbs[n]) && NbSettled(l2.sent, l2.got, at, q.iface, n, q.nbs[n]) {
      MoreSentOk(l, l2, at, n, q.nbs[n]);
      AckKeepsSettled(l.sent, l.got, at, r, t, peer, stamp, n);
    }
  }

  lemma AckDelivered(l: Link, at: Ip, p: Packet, env: Env)
    requires at in l.routers && p.Ack? && p.src in l.routers[at].nbs
    requires var e := End(at, p.src, l.routers[at].iface, l.routers[at].nbs[p.src]);
             e.nb.timeOfBoot == p.bootTime && e.Matches(p) && Adjacency(at, e.nb) in l.snaps && Adjacency(at, e.nb) in l.got
    ensures AfterDeliver(l, at, p, env)
            == l.(routers := l.routers[at := l.routers[at].(
                                         iface := l.routers[at].iface.ReceiveAck(p.tree, p.src, Stamp(p.neighborBootTime, p.sn)))])
  {
    var r := l.routers[at];
    assert r.nbs[p.src := r.nbs[p.src]] == r.nbs;
    assert l.sent + ToSet([]) == l.sent;
  }

  lemma AckStepFinish(l: Link, l2: Link, at: Ip, q: Router)
    requires Inv(l) && at in l.routers && l2 == l.(routers := l.routers[at := q])
    requires q.nbs == l.routers[at].nbs && q.iface.Now() == l.routers[at].iface.Now()
    requires RouterOk(l2, at) && CheckpointsKept(l, l2, at)
    ensures Inv(l2)
  {
    OldCheckpoints(l, at);
    assert Grows(l, l2, at);
    StepOk(l, l2, at);
  }

  lemma KnownAckStep(l: Link, at: Ip, p: Packet, env: Env)
    requires Inv(l) && at in l.routers && EnvOk(l.routers[at], env) && p in l.sent && Reaches(p, at)
    requires p.Ack? && p.src in l.routers[at].nbs
    ensures Inv(AfterDeliver(l, at, p, env))
  {
    var r := l.routers[at];
    var e := End(at, p.src, r.iface, r.nbs[p.src]);
    RecordFacts(l, at, p.src);
    if p.bootTime > e.nb.timeOfBoot {
      KnownResetStep(l, at, p, env, p.bootTime);
    } else if p.bootTime == e.nb.timeOfBoot && e.Matches(p) {
      AckedStep(l, at, p, env);
    } else {
      RecordOutcomeStep(l, at, p, env, e.Quiet());
    }
  }

  // ----- All packets -----

  lemma UnknownStep(l: Link, at: Ip, p: Packet, env: Env)
    requires Inv(l) && at in l.routers && EnvOk(l.routers[at], env) && p in l.sent && Reaches(p, at)
    requires !Dropped(l.routers[at], p) && p.src !in l.routers[at].nbs
    ensures Inv(AfterDeliver(l, at, p, env))
  {
    if p.Sync? && p.syncSn == 0 && p.master {
      MeetStep(l, at, p, env);
    } else {
      var nb := NewNb(if p.Reliable? then p.msg.stamp.bootTime else p.bootTime, l.routers[at].iface.bootTime);
      ResetStep(l, at, p, env, nb, nb.timeOfBoot);
    }
  }

  lemma DeliverStep(l: Link, at: Ip, p: Packet, env: Env)
    requires Inv(l) && Enabled(l, Deliver(at, p, env))
    ensures Inv(AfterDeliver(l, at, p, env))
  {
    if Dropped(l.routers[at], p) {
    } else if p.src !in l.routers[at].nbs {
      UnknownStep(l, at, p, env);
    } else {
      match p
      case Sync(_, _, _, _, _, _, _, _, _, _) => KnownSyncStep(l, at, p, env);
      case Hello(_, _, _) => KnownHelloStep(l, at, p, env);
      case Reliable(_, _, _) => KnownReliableStep(l, at, p, env);
      case Ack(_, _, _, _, _, _, _, _) => KnownAckStep(l, at, p, env);
    }
  }

  lemma TimeoutOk(l: Link, e: End)
    requires NbOk(l, e.me, e.peer, e.nb)
    ensures SyncsAndAcks(l, e.me, ToSet(e.SyncTimeout().out))
  {
    if e.nb.state == Slave {
      SyncPacketOk(l, e, e.nb.syncSn, true);
    } else if e.nb.state == Master {
      SyncPacketOk(l, e, e.nb.syncSn - 1, false);
    }
  }

  lemma SyncTimerStep(l: Link, at: Ip, peer: Ip)
    requires Inv(l) && at in l.routers
    ensures Inv(Next(l, SyncTimer(at, peer)))
  {
    var r := l.routers[at];
    if peer in r.nbs {
      var e := End(at, peer, r.iface, r.nbs[peer]);
      var out := ToSet(e.SyncTimeout().out);
      var l2 := l.(sent := l.sent + out);
      RecordFacts(l, at, peer);
      TimeoutOk(l, e);
      SameHistory(l, l2, at, out);
      MoreSentOk(l, l2, at, peer, e.nb);
      assert r.nbs[peer := e.nb] == r.nbs && l.routers[at := r] == l.routers;
      RecordStep(l, l2, at, peer, e.nb, out);
    }
  }
}
