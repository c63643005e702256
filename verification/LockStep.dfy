/** The exchange of snapshots advances in step: over every run the end that is driven is level with
    the end that drives or one ahead, and neither goes on when there is nothing left to send. */
module LockStep {
  import opened Types
  import opened NeighborSpec
  import opened Link
  import opened LinkInv
  import opened LinkNb
  import opened LinkDeliver
  import opened LinkTheorems

  // ----- What holds of one record -----

  /** A Sync that `x` sent to `y` in the adjacency its record stands for. */
  predicate Own(p: Packet, x: Ip, y: Ip, nb: Nb) {
    p.Sync? && p.src == x && p.dst == y && p.bootTime == nb.myBootTime && p.mySn == nb.mySn
  }

  /** A Sync that `y` sent to `x` for the snapshot the record of `x` adopted. */
  predicate Theirs(p: Packet, x: Ip, y: Ip, nb: Nb) {
    p.Sync? && p.src == y && p.dst == x && p.bootTime == nb.timeOfBoot && p.mySn == nb.neighborSn
  }

  /** Nothing was sent beyond the number the record has reached, and only an end with the lower
      address lets itself be driven after it has tried to drive. */
  predicate SentBy(nb: Nb, p: Packet)
    requires p.Sync?
  {
    match nb.state
    case Unknown => true
    case Slave => p.master && p.syncSn <= nb.syncSn
    case Master => if p.master then p.syncSn == 0 && p.src < p.dst else p.syncSn < nb.syncSn
    case Synced => p.syncSn <= nb.syncSn
  }

  /** The Sync that brought the record to where it is. */
  predicate BroughtBy(nb: Nb, p: Packet)
    requires p.Sync?
  {
    match nb.state
    case Unknown => true
    case Slave => !p.master && p.syncSn + 1 == nb.syncSn
    case Master => p.master && p.syncSn + 1 == nb.syncSn
    case Synced => p.syncSn == nb.syncSn
  }

  predicate MoreIn(s: Snap, k: nat) {
    More(s.listing, s.fragmentation, k)
  }

  ghost predicate Brought(sent: set<Packet>, x: Ip, y: Ip, nb: Nb) {
    nb.syncSn > 0 ==> exists p :: p in sent && Theirs(p, x, y, nb) && BroughtBy(nb, p)
  }

  /** Nobody takes another step unless one of the two snapshots has trees left for it. */
  predicate Needed(snaps: map<AdjId, Snap>, x: Ip, y: Ip, nb: Nb) {
    nb.syncSn >= 2 ==>
      && Adjacency(x, nb) in snaps && Adopted(y, nb) in snaps
      && (MoreIn(snaps[Adjacency(x, nb)], nb.syncSn - 1) || MoreIn(snaps[Adopted(y, nb)], nb.syncSn - 1))
  }

  ghost predicate RecordOk(l: Link, x: Ip, y: Ip, nb: Nb) {
    && (forall p :: p in l.sent && Own(p, x, y, nb) ==> SentBy(nb, p))
    && Brought(l.sent, x, y, nb)
    && Needed(l.snaps, x, y, nb)
  }

  ghost predicate InStep(l: Link) {
    && (forall x, y :: x in l.routers && y in l.routers[x].nbs ==> RecordOk(l, x, y, l.routers[x].nbs[y]))
    && (forall a :: a in l.snaps ==> l.snaps[a].fragmentation >= 1)
  }

  // ----- What a Sync does to a record -----

  predicate SameAdj(a: Nb, b: Nb) {
    b.timeOfBoot == a.timeOfBoot && b.myBootTime == a.myBootTime && b.mySn == a.mySn && b.neighborSn == a.neighborSn
  }

  /** Nothing but perhaps a repetition of what was sent. */
  predicate Repeats(e: End, a: Nb, o: Outcome) {
    && o.end.nb == a
    && forall p :: p in o.out ==> Own(p, e.me, e.peer, a) && p.syncSn == a.syncSn && (a.state == Slave ==> p.master) && a.state != Master
  }

  /** The driven end takes what it waits for, and answers. */
  predicate Answers(e: End, a: Nb, m: Packet, o: Outcome)
    requires m.Sync?
  {
    && (a.state == Master || (a.state == Slave && a.syncSn == 0 && e.me < e.peer))
    && m.master && m.syncSn == a.syncSn && m.mySn == a.neighborSn
    && |o.out| == 1 && Own(o.out[0], e.me, e.peer, a) && !o.out[0].master && o.out[0].syncSn == a.syncSn
    && if a.syncSn > 0 && !m.more && !More(a.myTable, a.fragmentation, a.syncSn)
       then o.end.nb.state == Synced && o.end.nb.syncSn == a.syncSn
       else o.end.nb.state == Master && o.end.nb.syncSn == a.syncSn + 1
  }

  /** The driving end got its answer. */
  predicate Proceeds(e: End, a: Nb, m: Packet, o: Outcome)
    requires m.Sync?
  {
    && a.state == Slave && !m.master && m.syncSn == a.syncSn && m.mySn == a.neighborSn
    && if a.syncSn > 0 && !m.more && !More(a.myTable, a.fragmentation, a.syncSn)
       then o.end.nb.state == Synced && o.end.nb.syncSn == a.syncSn && o.out == []
       else o.end.nb.state == Slave && o.end.nb.syncSn == a.syncSn + 1
            && |o.out| == 1 && Own(o.out[0], e.me, e.peer, a) && o.out[0].master && o.out[0].syncSn == a.syncSn + 1
  }

  predicate Turned(e: End, m: Packet, o: Outcome)
    requires m.Sync?
  {
    var a := e.Adopt(m.mySn).nb;
    SameAdj(a, o.end.nb) && (Repeats(e, a, o) || Answers(e, a, m, o) || Proceeds(e, a, m, o))
  }

  lemma MasterTurns(e: End, m: Packet, env: Env)
    requires m.Sync? && e.nb.state == Master && !Outdated(e, m)
    requires e.nb.syncSn == 0 ==> m.syncSn == 0
    ensures Turned(e, m, e.MasterSync(m, env))
  {
    InstallEffect(e.Adopt(m.mySn).nb, m.trees, Tree(0, 0));
  }

  lemma SlaveTurns(e: End, m: Packet, env: Env)
    requires m.Sync? && e.nb.state == Slave && !Outdated(e, m)
    ensures Turned(e, m, e.SlaveSync(m, env))
  {
    var f := e.Adopt(m.mySn);
    if f.nb.neighborSn == m.mySn && m.syncSn == f.nb.syncSn {
      InstallEffect(f.nb.(syncSn := f.nb.syncSn + 1), m.trees, Tree(0, 0));
      if m.syncSn == 0 && m.master && e.me < e.peer {
        var g := f.(nb := f.nb.(state := Master, syncSn := 0));
        assert g.Adopt(m.mySn) == g;
        MasterTurns(g, m, env);
      }
    }
  }

  lemma SyncedTurns(e: End, m: Packet, env: Env)
    requires m.Sync? && e.nb.state == Synced && !Outdated(e, m) && e.nb.neighborSn != 0
    ensures Turned(e, m, e.SyncedSync(m, env))
  {
  }

  // ----- A turn keeps the record in step -----

  lemma RepeatsKeeps(l: Link, l2: Link, e: End, a: Nb, o: Outcome)
    requires RecordOk(l, e.me, e.peer, a) && SameAdj(a, o.end.nb) && Repeats(e, a, o)
    requires l2.sent == l.sent + ToSet(o.out) && l2.snaps == l.snaps
    ensures RecordOk(l2, e.me, e.peer, o.end.nb)
  {
    if a.syncSn > 0 {
      var p :| p in l.sent && Theirs(p, e.me, e.peer, a) && BroughtBy(a, p);
      assert p in l2.sent && Theirs(p, e.me, e.peer, o.end.nb) && BroughtBy(o.end.nb, p);
    }
  }

  /** The packets speak the truth about the snapshots they are fragments of. */
  predicate Truthful(snaps: map<AdjId, Snap>, e: End, a: Nb, m: Packet)
    requires m.Sync?
  {
    var mine, theirs := Adjacency(e.me, a), AdjId(m.src, Stamp(m.bootTime, m.mySn));
    && mine in snaps && snaps[mine].listing == a.myTable && snaps[mine].fragmentation == a.fragmentation
    && theirs in snaps && m.more == MoreIn(snaps[theirs], m.syncSn)
    && m.src == e.peer && m.dst == e.me && m.bootTime == a.timeOfBoot
  }

  lemma AnswersKeeps(l: Link, l2: Link, e: End, a: Nb, m: Packet, o: Outcome)
    requires RecordOk(l, e.me, e.peer, a) && SameAdj(a, o.end.nb) && m.Sync? && m in l.sent && Answers(e, a, m, o)
    requires Truthful(l.snaps, e, a, m)
    requires l2.sent == l.sent + ToSet(o.out) && l2.snaps == l.snaps
    ensures RecordOk(l2, e.me, e.peer, o.end.nb)
  {
    var b := o.end.nb;
    assert m in l2.sent && Theirs(m, e.me, e.peer, b) && BroughtBy(b, m);
    forall p | p in l2.sent && Own(p, e.me, e.peer, b) ensures SentBy(b, p) {
      if p in l.sent {
        assert SentBy(a, p);
      }
    }
  }

  lemma ProceedsKeeps(l: Link, l2: Link, e: End, a: Nb, m: Packet, o: Outcome)
    requires RecordOk(l, e.me, e.peer, a) && SameAdj(a, o.end.nb) && m.Sync? && m in l.sent && Proceeds(e, a, m, o)
    requires Truthful(l.snaps, e, a, m)
    requires l2.sent == l.sent + ToSet(o.out) && l2.snaps == l.snaps
    ensures RecordOk(l2, e.me, e.peer, o.end.nb)
  {
    var b := o.end.nb;
    assert m in l2.sent && Theirs(m, e.me, e.peer, b) && BroughtBy(b, m);
    forall p | p in l2.sent && Own(p, e.me, e.peer, b) ensures SentBy(b, p) {
      if p in l.sent {
        assert SentBy(a, p);
      }
    }
  }

  lemma TurnedKeeps(l: Link, l2: Link, e: End, m: Packet, o: Outcome)
    requires RecordOk(l, e.me, e.peer, e.nb) && m.Sync? && m in l.sent && Turned(e, m, o)
    requires e.nb.state != Synced ==> Truthful(l.snaps, e, e.nb, m)
    requires l2.sent == l.sent + ToSet(o.out) && l2.snaps == l.snaps
    ensures RecordOk(l2, e.me, e.peer, o.end.nb)
  {
    var a := e.Adopt(m.mySn).nb;
    assert RecordOk(l, e.me, e.peer, a);
    if Repeats(e, a, o) {
      RepeatsKeeps(l, l2, e, a, o);
    } else if Answers(e, a, m, o) {
      AnswersKeeps(l, l2, e, a, m, o);
    } else {
      ProceedsKeeps(l, l2, e, a, m, o);
    }
  }

  // ----- A fresh record, and records that are left alone -----

  /** Nothing was sent yet in an adjacency that did not exist yet. */
  lemma FreshRecord(l: Link, l2: Link, x: Ip, y: Ip, nb: Nb, out: set<Packet>)
    requires SyncsOk(l) && Adjacency(x, nb) !in l.snaps && l2.sent == l.sent + out && nb.syncSn == 0
    requires forall p :: p in out && Own(p, x, y, nb) ==> SentBy(nb, p)
    ensures RecordOk(l2, x, y, nb)
  {
    forall p | p in l.sent && p.Sync? ensures !Own(p, x, y, nb) {
      assert SyncOk(l.snaps, p);
    }
  }

  ghost predicate SnapsKept(l: Link, l2: Link) {
    forall a :: a in l.snaps ==> a in l2.snaps && l2.snaps[a] == l.snaps[a]
  }

  lemma LeftAlone(l: Link, l2: Link, x: Ip, y: Ip, nb: Nb, nb2: Nb)
    requires RecordOk(l, x, y, nb) && SameAdj(nb, nb2) && nb2.state == nb.state && nb2.syncSn == nb.syncSn
    requires l.sent <= l2.sent && SnapsKept(l, l2)
    requires forall p :: p in l2.sent && p !in l.sent && Own(p, x, y, nb) ==> SentBy(nb, p)
    ensures RecordOk(l2, x, y, nb2)
  {
    if nb.syncSn > 0 {
      var p :| p in l.sent && Theirs(p, x, y, nb) && BroughtBy(nb, p);
      assert p in l2.sent && Theirs(p, x, y, nb2) && BroughtBy(nb2, p);
    }
  }

  /** A step that moves one record, and sends Syncs only to the neighbour of that record. */
  lemma OneRecordMoved(l: Link, l2: Link, at: Ip, peer: Ip)
    requires InStep(l) && at in l.routers && at in l2.routers && peer in l2.routers[at].nbs
    requires l2.routers == l.routers[at := l2.routers[at]]
    requires l2.routers[at].nbs == l.routers[at].nbs[peer := l2.routers[at].nbs[peer]]
    requires l.sent <= l2.sent && forall p :: p in l2.sent && p !in l.sent && p.Sync? ==> p.src == at && p.dst == peer
    requires SnapsKept(l, l2) && forall a :: a in l2.snaps && a !in l.snaps ==> l2.snaps[a].fragmentation >= 1
    requires RecordOk(l2, at, peer, l2.routers[at].nbs[peer])
    ensures InStep(l2)
  {
    forall x, y | x in l2.routers && y in l2.routers[x].nbs ensures RecordOk(l2, x, y, l2.routers[x].nbs[y]) {
      if x != at || y != peer {
        LeftAlone(l, l2, x, y, l.routers[x].nbs[y], l2.routers[x].nbs[y]);
      }
    }
  }

  /** A step that moves no record and sends no Sync. */
  lemma NoRecordMoved(l: Link, l2: Link)
    requires InStep(l) && l2.snaps == l.snaps
    requires l.sent <= l2.sent && forall p :: p in l2.sent && p !in l.sent ==> !p.Sync?
    requires forall x, y :: x in l2.routers && y in l2.routers[x].nbs ==>
               && x in l.routers && y in l.routers[x].nbs
               && var a, b := l.routers[x].nbs[y], l2.routers[x].nbs[y];
                  SameAdj(a, b) && b.state == a.state && b.syncSn == a.syncSn
    ensures InStep(l2)
  {
    forall x, y | x in l2.routers && y in l2.routers[x].nbs ensures RecordOk(l2, x, y, l2.routers[x].nbs[y]) {
      LeftAlone(l, l2, x, y, l.routers[x].nbs[y], l2.routers[x].nbs[y]);
    }
  }

  // ----- Deliveries -----

  lemma DeliveryMoves(l: Link, at: Ip, p: Packet, env: Env)
    requires InStep(l) && at in l.routers && EnvOk(l.routers[at], env) && !Dropped(l.routers[at], p)
    requires var o := Handle(l.routers[at], at, p, env);
             && o.end.peer == p.src && (forall q :: q in o.out && q.Sync? ==> q.src == at && q.dst == p.src)
             && RecordOk(AfterDeliver(l, at, p, env), at, p.src, o.end.nb)
    ensures InStep(AfterDeliver(l, at, p, env))
  {
    OneRecordMoved(l, AfterDeliver(l, at, p, env), at, p.src);
  }

  lemma ResetInStep(l: Link, at: Ip, p: Packet, env: Env, nb: Nb, boot: nat)
    requires Inv(l) && InStep(l) && at in l.routers && EnvOk(l.routers[at], env) && !Dropped(l.routers[at], p)
    requires Handle(l.routers[at], at, p, env)
             == End(at, p.src, WithRecord(l.routers[at], p.src, nb).iface, nb).Reset(boot, env)
    ensures InStep(AfterDeliver(l, at, p, env))
  {
    var e := End(at, p.src, WithRecord(l.routers[at], p.src, nb).iface, nb);
    var o := e.Reset(boot, env);
    ResetShape(e, boot, env);
    SnappedShape(e.iface, p.src, env.clock);
    NewIsNew(l, at, o.end.nb);
    FreshRecord(l, AfterDeliver(l, at, p, env), at, p.src, o.end.nb, ToSet(o.out));
    DeliveryMoves(l, at, p, env);
  }

  lemma KnownResetInStep(l: Link, at: Ip, p: Packet, env: Env, boot: nat)
    requires Inv(l) && InStep(l) && at in l.routers && EnvOk(l.routers[at], env) && !Dropped(l.routers[at], p)
    requires p.src in l.routers[at].nbs
    requires Handle(l.routers[at], at, p, env)
             == End(at, p.src, l.routers[at].iface, l.routers[at].nbs[p.src]).Reset(boot, env)
    ensures InStep(AfterDeliver(l, at, p, env))
  {
    var r := l.routers[at];
    assert RouterOk(l, at);
    assert r.iface.neighbors + {p.src} == r.iface.neighbors;
    ResetInStep(l, at, p, env, r.nbs[p.src], boot);
  }

  lemma MeetInStep(l: Link, at: Ip, p: Packet, env: Env)
    requires Inv(l) && InStep(l) && at in l.routers && EnvOk(l.routers[at], env) && p in l.sent && Reaches(p, at)
    requires !Dropped(l.routers[at], p) && p.Sync? && p.src !in l.routers[at].nbs
    requires p.syncSn == 0 && p.master
    ensures InStep(AfterDeliver(l, at, p, env))
  {
    var r0 := WithRecord(l.routers[at], p.src, NewNb(p.bootTime, l.routers[at].iface.bootTime));
    var e := End(at, p.src, r0.iface, r0.nbs[p.src]);
    var f := e.(nb := e.nb.(state := Master)).StartSnapshot(env);
    var g := f.(nb := f.nb.Forget());
    var o := g.MasterSync(p, env);
    MeetHandled(l, at, p, env);
    MeetShape(e, env);
    SnappedShape(r0.iface, p.src, env.clock);
    NewIsNew(l, at, g.nb);
    MeetOutcomeOk(l, at, p, env, r0, g, o);
    MeetRecord(l, at, p, env, r0, g, o);
    DeliverIsSnapshot(l, at, p, env, r0, o);
    DeliveryMoves(l, at, p, env);
  }

  lemma MeetRecord(l: Link, at: Ip, p: Packet, env: Env, r0: Router, g: End, o: Outcome)
    requires Inv(l) && at in l.routers && p in l.sent && p.Sync? && p.dst == at && p.syncSn == 0
    requires g.me == at && g.peer == p.src && g.nb == g.nb.Forget() && g.nb.state == Master
    requires g.nb.timeOfBoot == p.bootTime && g.nb.myTable == env.listing && g.nb.fragmentation == env.fragmentation
    requires Adjacency(at, g.nb) !in l.snaps && o == g.MasterSync(p, env)
    ensures RecordOk(AfterSnapshot(l, at, p.src, r0, env, o.end.nb, ToSet(o.out)), at, p.src, o.end.nb)
    ensures forall q :: q in o.out ==> q.Sync? && q.src == at && q.dst == p.src
  {
    var l1 := AfterSnapshot(l, at, p.src, r0, env, g.nb, {});
    var l2 := AfterSnapshot(l, at, p.src, r0, env, o.end.nb, ToSet(o.out));
    assert SyncOk(l.snaps, p);
    FreshRecord(l, l1, at, p.src, g.nb, {});
    MasterTurns(g, p, env);
    assert l2.snaps == l1.snaps;
    TurnedKeeps(l1, l2, g, p, o);
  }

  /** A Sync of the neighbour's current BootTime for a snapshot no later than the adopted one. */
  ghost predicate Current(l: Link, at: Ip, p: Packet) {
    && at in l.routers && !Dropped(l.routers[at], p) && p.src in l.routers[at].nbs
    && p.Sync? && p in l.sent && Reaches(p, at)
    && p.bootTime == l.routers[at].nbs[p.src].timeOfBoot && p.neighborBootTime <= l.routers[at].nbs[p.src].myBootTime
    && !Outdated(Side(l, at, p.src), p)
  }

  function Side(l: Link, at: Ip, peer: Ip): End
    requires at in l.routers && peer in l.routers[at].nbs
  {
    End(at, peer, l.routers[at].iface, l.routers[at].nbs[peer])
  }

  lemma CurrentFits(l: Link, at: Ip, p: Packet)
    requires Inv(l) && Current(l, at, p)
    ensures var e := Side(l, at, p.src); Fits(l, e, p) && NbOk(l, at, p.src, e.nb)
    ensures l.got.Keys == l.snaps.Keys
  {
    RecordFacts(l, at, p.src);
    assert SyncOk(l.snaps, p);
    assert TakenOk(l, AdjId(p.src, Stamp(p.bootTime, p.mySn)));
  }

  lemma FittingTurns(l: Link, e: End, p: Packet, env: Env)
    requires Fits(l, e, p) && NbOk(l, e.me, e.peer, e.nb) && !Outdated(e, p)
    ensures var o := e.Receive(p, env);
            && Turned(e, p, o) && o.end.iface == e.iface && o.end.peer == e.peer && !o.delivered
            && Adjacency(e.me, e.nb) in l.snaps
            && (e.nb.state != Synced ==> Truthful(l.snaps, e, e.nb, p))
  {
    SyncOutcomeOk(l, e, p, env);
    match e.nb.state {
      case Master => MasterTurns(e, p, env);
      case Slave => SlaveTurns(e, p, env);
      case Synced => SyncedTurns(e, p, env);
    }
  }

  /** What a handler does with a Sync that starts nothing new is a turn of the exchange. */
  lemma CurrentTurns(l: Link, at: Ip, p: Packet, env: Env)
    requires Inv(l) && Current(l, at, p)
    ensures var e := Side(l, at, p.src);
            var o := e.Receive(p, env);
            && Turned(e, p, o) && o.end.iface == e.iface && o.end.peer == e.peer && !o.delivered
            && Adjacency(at, e.nb) in l.snaps && l.got.Keys == l.snaps.Keys
            && (e.nb.state != Synced ==> Truthful(l.snaps, e, e.nb, p))
  {
    CurrentFits(l, at, p);
    FittingTurns(l, Side(l, at, p.src), p, env);
  }

  lemma TurnedShape(e: End, m: Packet, o: Outcome)
    requires m.Sync? && Turned(e, m, o)
    ensures Adjacency(e.me, o.end.nb) == Adjacency(e.me, e.nb)
    ensures forall q :: q in o.out ==> q.Sync? && q.src == e.me && q.dst == e.peer
  {
  }

  lemma KnownSyncInStep(l: Link, at: Ip, p: Packet, env: Env)
    requires Inv(l) && InStep(l) && Current(l, at, p) && EnvOk(l.routers[at], env)
    ensures InStep(AfterDeliver(l, at, p, env))
  {
    var e := Side(l, at, p.src);
    var o := e.Receive(p, env);
    CurrentTurns(l, at, p, env);
    TurnedShape(e, p, o);
    DeliverIsRecord(l, at, p, env, o);
    TurnedKeeps(l, AfterDeliver(l, at, p, env), e, p, o);
    DeliveryMoves(l, at, p, env);
  }

  /** Every packet but a Sync leaves the exchange where it is, unless it starts a new one. */
  lemma OthersTurnNothing(e: End, p: Packet, env: Env)
    requires !p.Sync? && (if p.Reliable? then p.msg.stamp.bootTime else p.bootTime) <= e.nb.timeOfBoot
    ensures var o := e.Receive(p, env);
            && o.end.me == e.me && o.end.peer == e.peer
            && SameAdj(e.nb, o.end.nb) && o.end.nb.state == e.nb.state && o.end.nb.syncSn == e.nb.syncSn
            && forall q :: q in o.out ==> !q.Sync?
  {
  }

  lemma KnownOtherInStep(l: Link, at: Ip, p: Packet, env: Env)
    requires Inv(l) && InStep(l) && at in l.routers && EnvOk(l.routers[at], env)
    requires !p.Sync? && p.src in l.routers[at].nbs
    requires (if p.Reliable? then p.msg.stamp.bootTime else p.bootTime) <= l.routers[at].nbs[p.src].timeOfBoot
    ensures InStep(AfterDeliver(l, at, p, env))
  {
    var e := End(at, p.src, l.routers[at].iface, l.routers[at].nbs[p.src]);
    var o := e.Receive(p, env);
    var l2 := AfterDeliver(l, at, p, env);
    OthersTurnNothing(e, p, env);
    LeftAlone(l, l2, at, p.src, e.nb, o.end.nb);
    DeliveryMoves(l, at, p, env);
  }

  lemma DeliverInStep(l: Link, at: Ip, p: Packet, env: Env)
    requires Inv(l) && InStep(l) && Enabled(l, Deliver(at, p, env))
    ensures InStep(AfterDeliver(l, at, p, env))
  {
    var r := l.routers[at];
    if Dropped(r, p) {
    } else if p.src !in r.nbs {
      if p.Sync? && p.syncSn == 0 && p.master {
        MeetInStep(l, at, p, env);
      } else {
        var nb := NewNb(if p.Reliable? then p.msg.stamp.bootTime else p.bootTime, r.iface.bootTime);
        ResetInStep(l, at, p, env, nb, nb.timeOfBoot);
      }
    } else {
      KnownInStep(l, at, p, env);
    }
  }

  lemma KnownInStep(l: Link, at: Ip, p: Packet, env: Env)
    requires Inv(l) && InStep(l) && Enabled(l, Deliver(at, p, env)) && !Dropped(l.routers[at], p)
    requires p.src in l.routers[at].nbs
    ensures InStep(AfterDeliver(l, at, p, env))
  {
    var e := End(at, p.src, l.routers[at].iface, l.routers[at].nbs[p.src]);
    var boot := if p.Reliable? then p.msg.stamp.bootTime else p.bootTime;
    RecordFacts(l, at, p.src);
    if boot > e.nb.timeOfBoot || (p.Sync? && boot == e.nb.timeOfBoot && p.neighborBootTime > e.nb.myBootTime) {
      KnownResetInStep(l, at, p, env, boot);
    } else if !p.Sync? {
      KnownOtherInStep(l, at, p, env);
    } else if boot < e.nb.timeOfBoot {
      LeftAlone(l, AfterDeliver(l, at, p, env), at, p.src, e.nb, e.nb);
      DeliveryMoves(l, at, p, env);
    } else if Outdated(e, p) {
      OutdatedResets(e, p, env);
      KnownResetInStep(l, at, p, env, e.nb.timeOfBoot);
    } else {
      KnownSyncInStep(l, at, p, env);
    }
  }

  // ----- Every step of every run -----

  lemma TimerRepeats(e: End)
    requires e.nb.state == Master ==> e.nb.syncSn >= 1
    ensures forall p :: p in e.SyncTimeout().out ==> Own(p, e.me, e.peer, e.nb) && SentBy(e.nb, p)
  {
  }

  lemma SyncTimerInStep(l: Link, at: Ip, peer: Ip)
    requires Inv(l) && InStep(l) && at in l.routers && peer in l.routers[at].nbs
    ensures InStep(Next(l, SyncTimer(at, peer)))
  {
    var e := Side(l, at, peer);
    RecordFacts(l, at, peer);
    TimerRepeats(e);
    RepeatedInStep(l, at, peer, e.SyncTimeout().out);
  }

  lemma RepeatedInStep(l: Link, at: Ip, peer: Ip, out: seq<Packet>)
    requires InStep(l) && at in l.routers && peer in l.routers[at].nbs
    requires forall p :: p in out ==> Own(p, at, peer, l.routers[at].nbs[peer]) && SentBy(l.routers[at].nbs[peer], p)
    ensures InStep(l.(sent := l.sent + ToSet(out)))
  {
    var l2 := l.(sent := l.sent + ToSet(out));
    LeftAlone(l, l2, at, peer, l.routers[at].nbs[peer], l.routers[at].nbs[peer]);
    OneRecordMoved(l, l2, at, peer);
  }

  lemma NextInStep(l: Link, a: Action)
    requires Inv(l) && InStep(l) && Enabled(l, a)
    ensures InStep(Next(l, a))
  {
    match a
    case Deliver(at, p, env) => DeliverInStep(l, at, p, env);
    case SyncTimer(at, peer) => if peer in l.routers[at].nbs { SyncTimerInStep(l, at, peer); }
    case _ => QuietActionInStep(l, a);
  }

  lemma QuietActionInStep(l: Link, a: Action)
    requires InStep(l) && Enabled(l, a) && !a.Deliver? && !a.SyncTimer?
    ensures InStep(Next(l, a))
  {
    NoRecordMoved(l, Next(l, a));
  }

  lemma {:induction false} RunInStep(ls: seq<Link>, actions: seq<Action>, k: nat)
    requires Run(ls, actions) && k <= |actions|
    ensures InStep(ls[k])
  {
    if k > 0 {
      RunOk(ls, actions, k - 1);
      RunInStep(ls, actions, k - 1);
      NextInStep(ls[k - 1], actions[k - 1]);
    }
  }

  lemma ReachableInStep(l: Link)
    requires Reachable(l)
    ensures Inv(l) && InStep(l)
  {
    var ls, actions :| Run(ls, actions) && l == ls[|actions|];
    RunOk(ls, actions, |actions|);
    RunInStep(ls, actions, |actions|);
  }

  // ----- Both ends of a pair -----

  /** Each end adopted the very snapshot the other end's record stands for. */
  ghost predicate Paired(l: Link, x: Ip, y: Ip) {
    && Knows(l, x, y) && Knows(l, y, x)
    && Adopted(y, l.routers[x].nbs[y]) == Adjacency(y, l.routers[y].nbs[x])
    && Adopted(x, l.routers[y].nbs[x]) == Adjacency(x, l.routers[x].nbs[y])
  }

  /** What the snapshots of a record's adjacency say about where the record stands. */
  predicate Standing(snaps: map<AdjId, Snap>, x: Ip, y: Ip, nb: Nb) {
    var a, b := Adjacency(x, nb), Adopted(y, nb);
    && nb.state != Unknown && (nb.state != Slave ==> nb.syncSn >= 1) && (nb.syncSn != 0 ==> nb.neighborSn != 0)
    && a in snaps && snaps[a].fragmentation >= 1
    && (nb.neighborSn != 0 ==> b in snaps && snaps[b].fragmentation >= 1)
    && (nb.state == Synced ==> !MoreIn(snaps[a], nb.syncSn) && !MoreIn(snaps[b], nb.syncSn))
  }

  lemma Stands(l: Link, x: Ip, y: Ip)
    requires Inv(l) && InStep(l) && Knows(l, x, y)
    ensures Standing(l.snaps, x, y, l.routers[x].nbs[y]) && RecordOk(l, x, y, l.routers[x].nbs[y])
  {
    RecordFacts(l, x, y);
  }

  /** The records of a pair, each in step. */
  ghost predicate Partners(l: Link, x: Ip, y: Ip, a: Nb, b: Nb) {
    && Adopted(y, a) == Adjacency(y, b) && Adopted(x, b) == Adjacency(x, a)
    && Standing(l.snaps, x, y, a) && Standing(l.snaps, y, x, b)
    && RecordOk(l, x, y, a) && RecordOk(l, y, x, b)
  }

  lemma PairedArePartners(l: Link, x: Ip, y: Ip)
    requires Inv(l) && InStep(l) && Paired(l, x, y)
    ensures Partners(l, x, y, l.routers[x].nbs[y], l.routers[y].nbs[x])
    ensures Partners(l, y, x, l.routers[y].nbs[x], l.routers[x].nbs[y])
  {
    Stands(l, x, y);
    Stands(l, y, x);
  }

  /** The Sync that brought one end to where it is was sent by the other end of the pair. */
  lemma BroughtByPeer(l: Link, x: Ip, y: Ip, a: Nb, b: Nb) returns (p: Packet)
    requires Partners(l, x, y, a, b) && a.syncSn > 0
    ensures p.Sync? && BroughtBy(a, p) && SentBy(b, p) && p.src == y && p.dst == x
  {
    p :| p in l.sent && Theirs(p, x, y, a) && BroughtBy(a, p);
    assert Own(p, y, x, b);
  }

  lemma MoreIsMonotone(s: Snap, j: nat, k: nat)
    requires MoreIn(s, k) && j <= k
    ensures MoreIn(s, j)
  {
    assert j * s.fragmentation <= k * s.fragmentation;
  }

  /** An end does not go past a number at which both sides are out of trees. */
  lemma NoFurther(l: Link, x: Ip, y: Ip, a: Nb, b: Nb, k: nat)
    requires Partners(l, x, y, a, b) && k >= 1
    requires !MoreIn(l.snaps[Adjacency(x, a)], k)
    requires Adopted(y, a) in l.snaps && !MoreIn(l.snaps[Adopted(y, a)], k)
    ensures a.syncSn <= k
  {
    if a.syncSn > k {
      var mine, theirs := l.snaps[Adjacency(x, a)], l.snaps[Adopted(y, a)];
      if MoreIn(mine, a.syncSn - 1) {
        MoreIsMonotone(mine, k, a.syncSn - 1);
      } else {
        MoreIsMonotone(theirs, k, a.syncSn - 1);
      }
    }
  }

  /** Over every run the driven end of a pair is level with the driving end or one ahead of it. */
  lemma DrivenIsLevelOrOneAhead(l: Link, x: Ip, y: Ip)
    requires Reachable(l) && Paired(l, x, y)
    requires l.routers[x].nbs[y].state == Slave && l.routers[y].nbs[x].state == Master
    ensures l.routers[x].nbs[y].syncSn <= l.routers[y].nbs[x].syncSn <= l.routers[x].nbs[y].syncSn + 1
  {
    ReachableInStep(l);
    PairedArePartners(l, x, y);
    LevelOrOneAhead(l, x, y, l.routers[x].nbs[y], l.routers[y].nbs[x]);
  }

  lemma LevelOrOneAhead(l: Link, x: Ip, y: Ip, a: Nb, b: Nb)
    requires Partners(l, x, y, a, b) && Partners(l, y, x, b, a) && a.state == Slave && b.state == Master
    ensures a.syncSn <= b.syncSn <= a.syncSn + 1
  {
    var p := BroughtByPeer(l, y, x, b, a);
    if a.syncSn > 0 {
      var q := BroughtByPeer(l, x, y, a, b);
    }
  }

  /** An exchange that got anywhere has exactly one driver: never both ends, and never neither. */
  lemma OneEndDrives(l: Link, x: Ip, y: Ip)
    requires Reachable(l) && Paired(l, x, y)
    ensures var a, b := l.routers[x].nbs[y], l.routers[y].nbs[x];
            && (a.state == Slave && b.state == Slave ==> a.syncSn == 0 && b.syncSn == 0)
            && !(a.state == Master && b.state == Master)
  {
    ReachableInStep(l);
    PairedArePartners(l, x, y);
    OneDrives(l, x, y, l.routers[x].nbs[y], l.routers[y].nbs[x]);
    OneDrives(l, y, x, l.routers[y].nbs[x], l.routers[x].nbs[y]);
  }

  lemma OneDrives(l: Link, x: Ip, y: Ip, a: Nb, b: Nb)
    requires Partners(l, x, y, a, b) && Partners(l, y, x, b, a)
    ensures a.state == Slave && b.state == Slave ==> a.syncSn == 0
    ensures a.state == Master && b.state == Master ==> y < x
  {
    if a.syncSn > 0 {
      var p := BroughtByPeer(l, x, y, a, b);
    }
  }

  /** When one end is synchronised the other is at the same number, and it is synchronised too or it
      is the driver, waiting for the answer to its last Sync. */
  lemma SyncedTogether(l: Link, x: Ip, y: Ip)
    requires Reachable(l) && Paired(l, x, y) && l.routers[x].nbs[y].state == Synced
    ensures l.routers[y].nbs[x].syncSn == l.routers[x].nbs[y].syncSn
    ensures l.routers[y].nbs[x].state in {Synced, Slave}
  {
    ReachableInStep(l);
    PairedArePartners(l, x, y);
    OtherOfSynced(l, x, y, l.routers[x].nbs[y], l.routers[y].nbs[x]);
  }

  lemma OtherOfSynced(l: Link, x: Ip, y: Ip, a: Nb, b: Nb)
    requires Partners(l, x, y, a, b) && Partners(l, y, x, b, a) && a.state == Synced
    ensures b.syncSn == a.syncSn && b.state in {Synced, Slave}
  {
    NoFurther(l, y, x, b, a, a.syncSn);
    var p := BroughtByPeer(l, x, y, a, b);
  }

  /** The answer that lets the driver finish: there is nothing left on either side. */
  lemma FinalAnswer(l: Link, x: Ip, p: Packet, env: Env)
    requires Inv(l) && Current(l, x, p) && Paired(l, x, p.src)
    requires l.routers[x].nbs[p.src].state == Slave && Handle(l.routers[x], x, p, env).end.nb.state == Synced
    ensures var a, b := l.routers[x].nbs[p.src], l.routers[p.src].nbs[x];
            && Own(p, p.src, x, b) && !p.master && p.syncSn == a.syncSn > 0
            && Adjacency(x, a) in l.snaps && !MoreIn(l.snaps[Adjacency(x, a)], a.syncSn)
            && Adopted(p.src, a) in l.snaps && !MoreIn(l.snaps[Adopted(p.src, a)], a.syncSn)
  {
    CurrentTurns(l, x, p, env);
    RecordFacts(l, x, p.src);
    var e := Side(l, x, p.src);
    assert Proceeds(e, e.Adopt(p.mySn).nb, p, e.Receive(p, env));
  }

  /** The driver finishes last: when it becomes synchronised the other end already is. */
  lemma DriverFinishesLast(l: Link, x: Ip, p: Packet, env: Env)
    requires Reachable(l) && Current(l, x, p) && Paired(l, x, p.src)
    requires l.routers[x].nbs[p.src].state == Slave
    requires Handle(l.routers[x], x, p, env).end.nb.state == Synced
    ensures l.routers[p.src].nbs[x].state == Synced && l.routers[p.src].nbs[x].syncSn == l.routers[x].nbs[p.src].syncSn
  {
    ReachableInStep(l);
    FinalAnswer(l, x, p, env);
    PairedArePartners(l, x, p.src);
    AnsweredIsSynced(l, x, p, l.routers[x].nbs[p.src], l.routers[p.src].nbs[x]);
  }

  lemma AnsweredIsSynced(l: Link, x: Ip, p: Packet, a: Nb, b: Nb)
    requires Partners(l, x, p.src, a, b) && Partners(l, p.src, x, b, a) && a.state == Slave
    requires p in l.sent && Own(p, p.src, x, b) && !p.master && p.syncSn == a.syncSn > 0
    requires !MoreIn(l.snaps[Adjacency(x, a)], a.syncSn)
    requires Adopted(p.src, a) in l.snaps && !MoreIn(l.snaps[Adopted(p.src, a)], a.syncSn)
    ensures b.state == Synced && b.syncSn == a.syncSn
  {
    NoFurther(l, p.src, x, b, a, a.syncSn);
    assert SentBy(b, p);
  }

  // ----- It ends -----

  /** How many Syncs it takes to send a snapshot: at least one. */
  function Syncs(s: Snap): (k: nat)
    requires s.fragmentation >= 1
    ensures k >= 1
  {
    var n := (|s.listing| + s.fragmentation - 1) / s.fragmentation;
    if n < 1 then 1 else n
  }

  function Bound(mine: Snap, theirs: Snap): nat
    requires mine.fragmentation >= 1 && theirs.fragmentation >= 1
  {
    if Syncs(mine) < Syncs(theirs) then Syncs(theirs) else Syncs(mine)
  }

  lemma MoreMeansFewer(s: Snap, k: nat)
    requires s.fragmentation >= 1
    ensures MoreIn(s, k) ==> k + 1 <= Syncs(s)
  {
    var f, n := s.fragmentation, |s.listing| + s.fragmentation - 1;
    assert n == f * (n / f) + n % f;
    if n / f < k + 1 {
      assert f * (n / f) <= f * k;
    }
  }

  ghost predicate Adoptive(l: Link, x: Ip, y: Ip) {
    && Knows(l, x, y)
    && Adjacency(x, l.routers[x].nbs[y]) in l.snaps && l.snaps[Adjacency(x, l.routers[x].nbs[y])].fragmentation >= 1
    && Adopted(y, l.routers[x].nbs[y]) in l.snaps && l.snaps[Adopted(y, l.routers[x].nbs[y])].fragmentation >= 1
  }

  lemma Bounded(l: Link, x: Ip, y: Ip, nb: Nb)
    requires Standing(l.snaps, x, y, nb) && RecordOk(l, x, y, nb) && nb.neighborSn != 0
    ensures nb.syncSn <= Bound(l.snaps[Adjacency(x, nb)], l.snaps[Adopted(y, nb)])
  {
    if nb.syncSn >= 2 {
      MoreMeansFewer(l.snaps[Adjacency(x, nb)], nb.syncSn - 1);
      MoreMeansFewer(l.snaps[Adopted(y, nb)], nb.syncSn - 1);
    }
  }

  /** No end goes past the number of Syncs the larger of the two snapshots takes. */
  lemma NoFurtherThanNeeded(l: Link, x: Ip, y: Ip)
    requires Reachable(l) && Knows(l, x, y) && l.routers[x].nbs[y].neighborSn != 0
    ensures Adoptive(l, x, y)
    ensures var nb := l.routers[x].nbs[y]; nb.syncSn <= Bound(l.snaps[Adjacency(x, nb)], l.snaps[Adopted(y, nb)])
  {
    ReachableInStep(l);
    Stands(l, x, y);
    Bounded(l, x, y, l.routers[x].nbs[y]);
  }

  /** How many more Syncs this end can accept. */
  function Left(nb: Nb, bound: nat): nat {
    if nb.state == Synced || nb.syncSn > bound then 0 else bound + 1 - nb.syncSn
  }

  lemma TurnCountsDown(e: End, p: Packet, o: Outcome, bound: nat)
    requires p.Sync? && Turned(e, p, o) && o.end.nb.syncSn <= bound
    requires o.end.nb.state != e.nb.state || o.end.nb.syncSn != e.nb.syncSn
    ensures Left(o.end.nb, bound) < Left(e.nb, bound) && o.end.nb.neighborSn == p.mySn
  {
  }

  /** Every Sync that starts nothing new either changes nothing or brings the end of the exchange
      nearer, so within an adjacency only so many Syncs are accepted. */
  lemma EverySyncCounts(l: Link, x: Ip, p: Packet, env: Env)
    requires Reachable(l) && Enabled(l, Deliver(x, p, env)) && Current(l, x, p)
    ensures var a, l2 := l.routers[x].nbs[p.src], AfterDeliver(l, x, p, env);
            && Knows(l2, x, p.src)
            && var b := l2.routers[x].nbs[p.src];
               if b.state == a.state && b.syncSn == a.syncSn then b == a.(neighborSn := b.neighborSn)
               else Adoptive(l2, x, p.src)
                    && var bound := Bound(l2.snaps[Adjacency(x, b)], l2.snaps[Adopted(p.src, b)]);
                       Left(b, bound) < Left(a, bound)
  {
    ReachableInStep(l);
    CurrentTurns(l, x, p, env);
    TurnMoves(l, x, p, env);
    TurnCounts(l, AfterDeliver(l, x, p, env), Side(l, x, p.src), p, Side(l, x, p.src).Receive(p, env));
  }

  lemma TurnCounts(l: Link, l2: Link, e: End, p: Packet, o: Outcome)
    requires p.Sync? && Turned(e, p, o) && p.mySn >= 1
    requires Standing(l2.snaps, e.me, e.peer, o.end.nb) && RecordOk(l2, e.me, e.peer, o.end.nb)
    ensures var a, b, x, y := e.nb, o.end.nb, e.me, e.peer;
            if b.state == a.state && b.syncSn == a.syncSn then b == a.(neighborSn := b.neighborSn)
            else b.neighborSn != 0
                 && Left(b, Bound(l2.snaps[Adjacency(x, b)], l2.snaps[Adopted(y, b)]))
                    < Left(a, Bound(l2.snaps[Adjacency(x, b)], l2.snaps[Adopted(y, b)]))
  {
    if o.end.nb.state != e.nb.state || o.end.nb.syncSn != e.nb.syncSn {
      assert o.end.nb.neighborSn == p.mySn;
      Bounded(l2, e.me, e.peer, o.end.nb);
      TurnCountsDown(e, p, o, Bound(l2.snaps[Adjacency(e.me, o.end.nb)], l2.snaps[Adopted(e.peer, o.end.nb)]));
    }
  }

  /** After a turn the record is what the handler made of it, and stands in step. */
  lemma TurnMoves(l: Link, x: Ip, p: Packet, env: Env)
    requires Inv(l) && InStep(l) && Enabled(l, Deliver(x, p, env)) && Current(l, x, p)
    ensures var l2, o := AfterDeliver(l, x, p, env), Side(l, x, p.src).Receive(p, env);
            && Knows(l2, x, p.src) && l2.routers[x].nbs[p.src] == o.end.nb
            && Standing(l2.snaps, x, p.src, o.end.nb) && RecordOk(l2, x, p.src, o.end.nb)
    ensures p.mySn >= 1
  {
    var l2 := AfterDeliver(l, x, p, env);
    DeliverStep(l, x, p, env);
    KnownSyncInStep(l, x, p, env);
    RecordIsHandled(l, x, p, env);
    Stands(l2, x, p.src);
    assert SyncOk(l.snaps, p);
    assert TakenOk(l, AdjId(p.src, Stamp(p.bootTime, p.mySn)));
  }

  lemma RecordIsHandled(l: Link, x: Ip, p: Packet, env: Env)
    requires Inv(l) && Current(l, x, p)
    ensures var l2, o := AfterDeliver(l, x, p, env), Side(l, x, p.src).Receive(p, env);
            Knows(l2, x, p.src) && l2.routers[x].nbs[p.src] == o.end.nb
  {
    CurrentTurns(l, x, p, env);
  }

  // ----- It can always be finished -----

  function SomeEnv(r: Router): Env {
    Env([], 1, r.iface.bootTime + 1)
  }

  /** Steps that follow one another, from any state. */
  ghost predicate Continues(ls: seq<Link>, actions: seq<Action>) {
    && |ls| == |actions| + 1
    && forall k :: 0 <= k < |actions| ==> Enabled(ls[k], actions[k]) && ls[k + 1] == Next(ls[k], actions[k])
  }

  lemma StepIsReachable(l: Link, a: Action)
    requires Reachable(l) && Enabled(l, a)
    ensures Reachable(Next(l, a))
  {
    var ls, actions :| Run(ls, actions) && l == ls[|actions|];
    LongerRun(ls, actions, a, Next(l, a));
    assert Next(l, a) == (ls + [Next(l, a)])[|actions + [a]|];
  }

  lemma LongerRun(ls: seq<Link>, actions: seq<Action>, a: Action, l2: Link)
    requires Run(ls, actions) && Enabled(ls[|actions|], a) && l2 == Next(ls[|actions|], a)
    ensures Run(ls + [l2], actions + [a])
  {
  }

  /** Two ends that stand for the same pair of snapshots, at the BootTimes they have now. */
  predicate Facing(e: End, f: End) {
    && e.me == f.peer && e.peer == f.me && e.me != f.me
    && e.nb.timeOfBoot == f.nb.myBootTime == f.iface.bootTime && e.nb.neighborSn == f.nb.mySn >= 1
    && f.nb.timeOfBoot == e.nb.myBootTime == e.iface.bootTime && f.nb.neighborSn == e.nb.mySn >= 1
  }

  lemma MatchedAreFacing(l: Link, x: Ip, y: Ip)
    requires Inv(l) && Matched(l, x, y)
    ensures Facing(Side(l, x, y), Side(l, y, x)) && Paired(l, x, y)
  {
    RecordFacts(l, x, y);
    RecordFacts(l, y, x);
    assert TakenOk(l, Adjacency(x, l.routers[x].nbs[y]));
    assert TakenOk(l, Adjacency(y, l.routers[y].nbs[x]));
  }

  /** A Sync that an end sends is taken for what it is by the end it faces. */
  lemma FacedIsCurrent(l: Link, x: Ip, y: Ip, p: Packet)
    requires Knows(l, x, y) && Knows(l, y, x) && Facing(Side(l, x, y), Side(l, y, x))
    requires p in l.sent && Own(p, y, x, l.routers[y].nbs[x]) && p.neighborBootTime == l.routers[y].nbs[x].timeOfBoot
    ensures Current(l, x, p)
  {
  }

  lemma TurnKeepsFacing(e: End, f: End, p: Packet, o: Outcome)
    requires Facing(e, f) && p.Sync? && Turned(e, p, o) && o.end.iface == e.iface && o.end.me == e.me && o.end.peer == e.peer
    ensures Facing(o.end, f) && Facing(f, o.end)
  {
  }

  /** The state in which an end can be moved by what the timer of the other end sends. */
  predicate Movable(e: End, f: End) {
    || (e.nb.state == Master && f.nb.state == Slave && e.nb.syncSn == f.nb.syncSn)
    || (e.nb.state == Slave && f.nb.state == Master && e.nb.syncSn + 1 == f.nb.syncSn)
    || (e.nb.state == Slave && f.nb.state == Slave && e.nb.syncSn == 0 && f.nb.syncSn == 0 && e.me < f.me)
  }

  lemma TimerMoves(e: End, f: End, env: Env)
    requires Facing(e, f) && Movable(e, f)
    ensures var out := f.SyncTimeout().out;
            && |out| == 1 && Own(out[0], f.me, e.me, f.nb) && out[0].neighborBootTime == f.nb.timeOfBoot
            && var o := e.Receive(out[0], env);
               o.end.nb.state != e.nb.state || o.end.nb.syncSn != e.nb.syncSn
  {
    var p := f.SyncTimeout().out[0];
    InstallEffect(e.nb, p.trees, Tree(0, 0));
    InstallEffect(e.nb.(syncSn := e.nb.syncSn + 1), p.trees, Tree(0, 0));
  }

  /** The last answer is sent again on demand, and lets the driver finish. */
  lemma LastAnswerRepeats(e: End, f: End, env: Env, env2: Env)
    requires Facing(e, f) && e.nb.state == Synced && f.nb.state == Slave && e.nb.syncSn == f.nb.syncSn >= 1
    requires !More(f.nb.myTable, f.nb.fragmentation, f.nb.syncSn)
    ensures var out := f.SyncTimeout().out;
            && |out| == 1 && Own(out[0], f.me, e.me, f.nb) && out[0].neighborBootTime == f.nb.timeOfBoot
            && var o := e.Receive(out[0], env);
               && o.end == e && |o.out| == 1 && Own(o.out[0], e.me, f.me, e.nb)
               && o.out[0].neighborBootTime == e.nb.timeOfBoot
               && f.Receive(o.out[0], env2).end.nb.state == Synced
  {
  }

  /** A Sync delivered between two ends that face each other moves the one and not the other. */
  lemma TurnBetween(l: Link, x: Ip, y: Ip, p: Packet, env: Env)
    requires Inv(l) && Matched(l, x, y) && EnvOk(l.routers[x], env)
    requires p in l.sent && Own(p, y, x, l.routers[y].nbs[x]) && p.neighborBootTime == l.routers[y].nbs[x].timeOfBoot
    ensures Enabled(l, Deliver(x, p, env)) && Current(l, x, p)
    ensures var l2, o := Next(l, Deliver(x, p, env)), Side(l, x, y).Receive(p, env);
            && Matched(l2, x, y) && Side(l2, x, y) == o.end && l2.routers[y] == l.routers[y]
            && l2.snaps == l.snaps && forall q :: q in o.out ==> q in l2.sent
  {
    MatchedAreFacing(l, x, y);
    FacedIsCurrent(l, x, y, p);
    CurrentTurns(l, x, p, env);
    TurnedBetween(l, x, y, p, env);
  }

  lemma TurnedBetween(l: Link, x: Ip, y: Ip, p: Packet, env: Env)
    requires Knows(l, x, y) && Knows(l, y, x) && Facing(Side(l, x, y), Side(l, y, x)) && Current(l, x, p) && p.src == y
    requires var e := Side(l, x, y);
             var o := e.Receive(p, env);
             && Turned(e, p, o) && o.end.iface == e.iface && o.end.peer == e.peer
             && Adjacency(x, e.nb) in l.snaps && l.got.Keys == l.snaps.Keys
    ensures var l2, o := Next(l, Deliver(x, p, env)), Side(l, x, y).Receive(p, env);
            && Matched(l2, x, y) && Side(l2, x, y) == o.end && l2.routers[y] == l.routers[y]
            && l2.snaps == l.snaps && forall q :: q in o.out ==> q in l2.sent
  {
    var e := Side(l, x, y);
    var o := e.Receive(p, env);
    TurnedShape(e, p, o);
    TurnKeepsFacing(e, Side(l, y, x), p, o);
    DeliverIsRecord(l, x, p, env, o);
    FacingAreMatched(AfterDeliver(l, x, p, env), x, y, o.end, Side(l, y, x));
  }

  lemma FacingAreMatched(l: Link, x: Ip, y: Ip, e: End, f: End)
    requires Knows(l, x, y) && Knows(l, y, x) && Side(l, x, y) == e && Side(l, y, x) == f && Facing(e, f)
    ensures Matched(l, x, y)
  {
  }

  lemma TimerBetween(l: Link, x: Ip, y: Ip)
    requires Matched(l, x, y) && |Side(l, y, x).SyncTimeout().out| == 1
    ensures var l1 := Next(l, SyncTimer(y, x));
            && Enabled(l, SyncTimer(y, x)) && Matched(l1, x, y)
            && Side(l1, x, y) == Side(l, x, y) && Side(l1, y, x) == Side(l, y, x)
            && l1.snaps == l.snaps && l1.routers == l.routers && Side(l, y, x).SyncTimeout().out[0] in l1.sent
  {
  }

  /** Only the Sync timers of two routers, and Syncs of the one delivered to the other. */
  predicate Between(a: Action, x: Ip, y: Ip) {
    match a
    case SyncTimer(at, peer) => (at == x && peer == y) || (at == y && peer == x)
    case Deliver(at, p, _) => p.Sync? && ((at == x && p.src == y) || (at == y && p.src == x))
    case _ => false
  }

  /** A way from `l` to `l2` that takes nothing else. */
  ghost predicate Leads(l: Link, l2: Link, x: Ip, y: Ip, ls: seq<Link>, actions: seq<Action>) {
    && Continues(ls, actions) && ls[0] == l && ls[|actions|] == l2
    && forall a :: a in actions ==> Between(a, x, y)
  }

  lemma LeadsOn(l: Link, a: Action, l2: Link, x: Ip, y: Ip, ls: seq<Link>, actions: seq<Action>)
    requires Enabled(l, a) && Between(a, x, y) && Leads(Next(l, a), l2, x, y, ls, actions)
    ensures Leads(l, l2, x, y, [l] + ls, [a] + actions)
  {
    var ls2, actions2 := [l] + ls, [a] + actions;
    forall k | 0 <= k < |actions2| ensures Enabled(ls2[k], actions2[k]) && ls2[k + 1] == Next(ls2[k], actions2[k]) {
      if k > 0 {
        assert ls2[k] == ls[k - 1] && actions2[k] == actions[k - 1];
      }
    }
  }

  function Ahead(l: Link, x: Ip, y: Ip): nat
    requires x in l.routers && y in l.routers[x].nbs
  {
    var nb := l.routers[x].nbs[y];
    var a, b := Adjacency(x, nb), Adopted(y, nb);
    if a in l.snaps && b in l.snaps && l.snaps[a].fragmentation >= 1 && l.snaps[b].fragmentation >= 1
    then Left(nb, Bound(l.snaps[a], l.snaps[b])) else 0
  }

  /** How many Syncs the two ends of a pair can still accept. */
  function Todo(l: Link, x: Ip, y: Ip): nat {
    if x in l.routers && y in l.routers[x].nbs && y in l.routers && x in l.routers[y].nbs
    then Ahead(l, x, y) + Ahead(l, y, x) else 0
  }

  function Prompt(l: Link, x: Ip, y: Ip): Link
    requires y in l.routers
  {
    Next(l, SyncTimer(y, x))
  }

  /** The timer of one end fires, and what it sends reaches the other end. */
  lemma PromptedTurn(l: Link, x: Ip, y: Ip, env: Env)
    requires Reachable(l) && Matched(l, x, y) && EnvOk(l.routers[x], env)
    requires var out := Side(l, y, x).SyncTimeout().out;
             |out| == 1 && Own(out[0], y, x, l.routers[y].nbs[x]) && out[0].neighborBootTime == l.routers[y].nbs[x].timeOfBoot
    ensures var p, l1 := Side(l, y, x).SyncTimeout().out[0], Prompt(l, x, y);
            && Enabled(l, SyncTimer(y, x)) && Reachable(l1) && Enabled(l1, Deliver(x, p, env))
            && var l2, o := Next(l1, Deliver(x, p, env)), Side(l, x, y).Receive(p, env);
               && Reachable(l2) && Matched(l2, x, y) && Side(l2, x, y) == o.end && l2.routers[y] == l.routers[y]
               && l2.snaps == l.snaps && (forall q :: q in o.out ==> q in l2.sent) && Turned(Side(l, x, y), p, o)
  {
    var p := Side(l, y, x).SyncTimeout().out[0];
    var l1 := Prompt(l, x, y);
    TimerBetween(l, x, y);
    StepIsReachable(l, SyncTimer(y, x));
    ReachableOk(l1);
    TurnBetween(l1, x, y, p, env);
    CurrentTurns(l1, x, p, env);
    StepIsReachable(l1, Deliver(x, p, env));
  }

  lemma TurnBringsNearer(l: Link, l2: Link, x: Ip, y: Ip, p: Packet, o: Outcome)
    requires Inv(l) && InStep(l) && Inv(l2) && InStep(l2) && Matched(l, x, y) && Matched(l2, x, y)
    requires Side(l2, x, y) == o.end && Side(l2, y, x) == Side(l, y, x) && l2.snaps == l.snaps
    requires p.Sync? && Turned(Side(l, x, y), p, o)
    requires o.end.nb.state != l.routers[x].nbs[y].state || o.end.nb.syncSn != l.routers[x].nbs[y].syncSn
    ensures Todo(l2, x, y) < Todo(l, x, y) && Todo(l2, y, x) < Todo(l, y, x)
  {
    Stands(l, x, y);
    Stands(l2, x, y);
    MatchedAreFacing(l, x, y);
    Bounded(l2, x, y, o.end.nb);
    TurnCountsDown(Side(l, x, y), p, o, Bound(l2.snaps[Adjacency(x, o.end.nb)], l2.snaps[Adopted(y, o.end.nb)]));
  }

  /** As long as neither end is synchronised, one of the timers moves the other end. */
  lemma SomeoneMoves(l: Link, x: Ip, y: Ip)
    requires Reachable(l) && Matched(l, x, y)
    requires l.routers[x].nbs[y].state != Synced && l.routers[y].nbs[x].state != Synced
    ensures Movable(Side(l, x, y), Side(l, y, x)) || Movable(Side(l, y, x), Side(l, x, y))
  {
    ReachableInStep(l);
    MatchedAreFacing(l, x, y);
    PairedArePartners(l, x, y);
    PartnersMove(l, Side(l, x, y), Side(l, y, x));
  }

  lemma PartnersMove(l: Link, e: End, f: End)
    requires e.me == f.peer && e.peer == f.me && e.me != f.me
    requires Partners(l, e.me, f.me, e.nb, f.nb) && Partners(l, f.me, e.me, f.nb, e.nb)
    requires e.nb.state != Synced && f.nb.state != Synced
    ensures Movable(e, f) || Movable(f, e)
  {
    var x, y, a, b := e.me, f.me, e.nb, f.nb;
    OneDrives(l, x, y, a, b);
    OneDrives(l, y, x, b, a);
    if a.state == Slave && b.state == Master {
      LevelOrOneAhead(l, x, y, a, b);
    } else if a.state == Master && b.state == Slave {
      LevelOrOneAhead(l, y, x, b, a);
    }
  }

  ghost predicate BothSynced(l: Link, x: Ip, y: Ip) {
    Matched(l, x, y) && l.routers[x].nbs[y].state == Synced && l.routers[y].nbs[x].state == Synced
  }

  /** The driver waits for the last answer: it is sent again, and the driver finishes. */
  lemma FinishDriver(l: Link, x: Ip, y: Ip) returns (ls: seq<Link>, actions: seq<Action>, l2: Link)
    requires Reachable(l) && Matched(l, x, y)
    requires l.routers[x].nbs[y].state == Synced && l.routers[y].nbs[x].state != Synced
    ensures Leads(l, l2, x, y, ls, actions) && BothSynced(l2, x, y)
  {
    var env := SomeEnv(l.routers[x]);
    var env2 := SomeEnv(l.routers[y]);
    DriverWaits(l, x, y);
    LastAnswerRepeats(Side(l, x, y), Side(l, y, x), env, env2);
    var p, l1 := Side(l, y, x).SyncTimeout().out[0], Prompt(l, x, y);
    PromptedTurn(l, x, y, env);
    var next := Next(l1, Deliver(x, p, env));
    var q := Side(l, x, y).Receive(p, env).out[0];
    LastTurn(l, next, x, y, q, env2);
    l2 := Next(next, Deliver(y, q, env2));
    ls, actions := [l2], [];
    LeadsOn(next, Deliver(y, q, env2), l2, x, y, ls, actions);
    ls, actions := [next] + ls, [Deliver(y, q, env2)] + actions;
    LeadsOn(l1, Deliver(x, p, env), l2, x, y, ls, actions);
    ls, actions := [l1] + ls, [Deliver(x, p, env)] + actions;
    LeadsOn(l, SyncTimer(y, x), l2, x, y, ls, actions);
    ls, actions := [l] + ls, [SyncTimer(y, x)] + actions;
  }

  lemma DriverWaits(l: Link, x: Ip, y: Ip)
    requires Reachable(l) && Matched(l, x, y)
    requires l.routers[x].nbs[y].state == Synced && l.routers[y].nbs[x].state != Synced
    ensures var e, f := Side(l, x, y), Side(l, y, x);
            && Facing(e, f) && f.nb.state == Slave && e.nb.syncSn == f.nb.syncSn >= 1
            && !More(f.nb.myTable, f.nb.fragmentation, f.nb.syncSn)
  {
    ReachableInStep(l);
    MatchedAreFacing(l, x, y);
    SyncedTogether(l, x, y);
    Stands(l, x, y);
    RecordFacts(l, y, x);
  }

  lemma LastTurn(l: Link, next: Link, x: Ip, y: Ip, q: Packet, env2: Env)
    requires Reachable(next) && Matched(next, x, y) && q in next.sent
    requires y in l.routers && x in l.routers[y].nbs && y in next.routers && x in next.routers[y].nbs
    requires x in next.routers && y in next.routers[x].nbs
    requires EnvOk(l.routers[y], env2) && next.routers[y] == l.routers[y]
    requires Side(next, x, y).nb.state == Synced && Side(next, y, x).Receive(q, env2).end.nb.state == Synced
    requires Own(q, x, y, next.routers[x].nbs[y]) && q.neighborBootTime == next.routers[x].nbs[y].timeOfBoot
    ensures Enabled(next, Deliver(y, q, env2)) && BothSynced(Next(next, Deliver(y, q, env2)), x, y)
  {
    ReachableOk(next);
    TurnBetween(next, y, x, q, env2);
  }

  /** Whatever was lost, two ends that match can always finish: their Sync timers alone, each packet
      delivered once, bring both to `Synced`. */
  lemma {:induction false} CanFinish(l: Link, x: Ip, y: Ip) returns (ls: seq<Link>, actions: seq<Action>, l2: Link)
    requires Reachable(l) && Matched(l, x, y)
    ensures Leads(l, l2, x, y, ls, actions) && BothSynced(l2, x, y)
    decreases Todo(l, x, y), 1
  {
    if BothSynced(l, x, y) {
      ls, actions, l2 := [l], [], l;
    } else if l.routers[x].nbs[y].state == Synced {
      ls, actions, l2 := FinishDriver(l, x, y);
    } else if l.routers[y].nbs[x].state == Synced {
      ls, actions, l2 := FinishDriver(l, y, x);
    } else {
      SomeoneMoves(l, x, y);
      if Movable(Side(l, x, y), Side(l, y, x)) {
        ls, actions, l2 := MoveOn(l, x, y);
      } else {
        ls, actions, l2 := MoveOn(l, y, x);
      }
    }
  }

  lemma {:induction false} MoveOn(l: Link, x: Ip, y: Ip) returns (ls: seq<Link>, actions: seq<Action>, l2: Link)
    requires Reachable(l) && Matched(l, x, y) && Movable(Side(l, x, y), Side(l, y, x))
    ensures Leads(l, l2, x, y, ls, actions) && BothSynced(l2, x, y)
    decreases Todo(l, x, y), 0
  {
    var env := SomeEnv(l.routers[x]);
    var p, l1 := Side(l, y, x).SyncTimeout().out[0], Prompt(l, x, y);
    ReachableInStep(l);
    MatchedAreFacing(l, x, y);
    TimerMoves(Side(l, x, y), Side(l, y, x), env);
    PromptedTurn(l, x, y, env);
    var next := Next(l1, Deliver(x, p, env));
    ReachableInStep(next);
    TurnBringsNearer(l, next, x, y, p, Side(l, x, y).Receive(p, env));
    ls, actions, l2 := CanFinish(next, x, y);
    LeadsOn(l1, Deliver(x, p, env), l2, x, y, ls, actions);
    ls, actions := [l1] + ls, [Deliver(x, p, env)] + actions;
    LeadsOn(l, SyncTimer(y, x), l2, x, y, ls, actions);
    ls, actions := [l] + ls, [SyncTimer(y, x)] + actions;
  }
}
