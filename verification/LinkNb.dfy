/** Each packet handler keeps what a router holds about a neighbour in step with that
    neighbour's history. */
module LinkNb {
  import opened Types
  import opened ReliableSpec
  import opened NeighborSpec
  import opened Link
  import opened LinkInv

  // ----- Snapshots arrive fragment by fragment -----

  lemma {:induction false} LookupSplit(a: seq<Entry>, b: seq<Entry>, t: Tree)
    ensures Lookup(a + b, t) == if Lookup(b, t).Some? then Lookup(b, t) else Lookup(a, t)
    decreases |b|
  {
    if b == [] {
      assert a + b == a;
    } else {
      assert (a + b)[..|a + b| - 1] == a + b[..|b| - 1];
      LookupSplit(a, b[..|b| - 1], t);
    }
  }

  lemma {:induction false} InstallEffect(nb: Nb, trees: seq<Entry>, t: Tree)
    ensures var r := nb.Install(trees);
            && r == nb.(upstream := r.upstream)
            && Get(r.upstream, t) ==
               if GetOr(nb.lastSn, t, 0) <= nb.neighborSn && Lookup(trees, t).Some? then Lookup(trees, t)
               else Get(nb.upstream, t)
    decreases |trees|
  {
    if trees != [] {
      var e := trees[0];
      var next := if GetOr(nb.lastSn, e.tree, 0) > nb.neighborSn then nb
                  else nb.(upstream := nb.upstream[e.tree := e.metric]);
      InstallEffect(next, trees[1..], t);
      assert trees == [e] + trees[1..];
      LookupSplit([e], trees[1..], t);
      LookupOne(e, t);
    }
  }

  lemma LookupOne(e: Entry, t: Tree)
    ensures Lookup([e], t) == if e.tree == t then Some(e.metric) else None
  {
    assert [e][..0] == [];
  }

  lemma InstalledGrows(s: Snap, k: nat)
    ensures Installed(s, k + 1) == Installed(s, k) + Fragment(s.listing, s.fragmentation, k)
  {
    UptoIsMonotone(|s.listing|, s.fragmentation, k);
  }

  lemma InstalledStart(s: Snap)
    ensures Installed(s, 0) == []
  {
  }

  lemma InstalledAll(s: Snap, k: nat)
    requires !More(s.listing, s.fragmentation, k)
    ensures Installed(s, k) == s.listing && Fragment(s.listing, s.fragmentation, k) == []
  {
    UptoIsMonotone(|s.listing|, s.fragmentation, k);
  }

  /** Installing fragment `k` on top of fragments `0..k` skips exactly the trees about which
      something newer than the snapshot was delivered meanwhile. */
  lemma InstallKeepsReplays(sent: set<Packet>, at: Ip, peer: Ip, nb: Nb, k: nat, s: Snap, got: map<Tree, nat>)
    requires Replays(sent, at, peer, nb, k, s, got) && Pruned(nb, got) && nb.checkpoint == 0
    ensures Replays(sent, at, peer, nb.Install(Fragment(s.listing, s.fragmentation, k)), k + 1, s, got)
  {
    var trees := Fragment(s.listing, s.fragmentation, k);
    var r := nb.Install(trees);
    InstalledGrows(s, k);
    forall t
      ensures if t in got then
                && got[t] > r.neighborSn
                && exists kind :: Said(sent, peer, at, Msg(Stamp(r.timeOfBoot, got[t]), t, kind)) && Holds(r, t, kind)
              else t !in r.interest && Get(r.upstream, t) == Lookup(Installed(s, k + 1), t)
    {
      InstallEffect(nb, trees, t);
      LookupSplit(Installed(s, k), trees, t);
      if t in got {
        var kind :| Said(sent, peer, at, Msg(Stamp(nb.timeOfBoot, got[t]), t, kind)) && Holds(nb, t, kind);
        assert Holds(r, t, kind);
      }
    }
  }

  // ----- Sync packets -----

  /** A Sync that got past the BootTime checks: it was sent for the snapshot it names,
      and to no later BootTime than that of this adjacency. */
  predicate Fits(l: Link, e: End, m: Packet) {
    && m.Sync? && m.src == e.peer && m.dst == e.me
    && SyncOk(l.snaps, m) && m.mySn >= 1
    && m.bootTime == e.nb.timeOfBoot && m.neighborBootTime <= e.nb.myBootTime
  }

  ghost predicate SyncsSent(l: Link, e: End, o: Outcome) {
    forall p :: p in o.out ==> p.Sync? && p.src == e.me && SyncOk(l.snaps, p)
  }

  lemma SyncPacketOk(l: Link, e: End, k: nat, master: bool)
    requires NbCore(l, e.me, e.peer, e.nb) && e.nb.state != Synced
    ensures SyncOk(l.snaps, e.SyncPacket(k, master))
  {
  }

  lemma AdoptOk(l: Link, e: End, m: Packet)
    requires NbCore(l, e.me, e.peer, e.nb) && e.nb.state != Synced && Fits(l, e, m)
    ensures NbCore(l, e.me, e.peer, e.Adopt(m.mySn).nb)
    ensures Fits(l, e.Adopt(m.mySn), m)
  {
    var f := e.Adopt(m.mySn);
    var a := Adjacency(e.me, e.nb);
    assert Adjacency(e.me, f.nb) == a;
    if f != e {
      var s := l.snaps[Adopted(e.peer, f.nb)];
      InstalledStart(s);
      assert Replays(l.sent, e.me, e.peer, f.nb, 0, s, l.got[a]);
    }
  }

  /** The next fragment of the adopted snapshot is installed and the exchange moves on. */
  lemma AdvanceOk(l: Link, e: End, m: Packet)
    requires NbCore(l, e.me, e.peer, e.nb) && e.nb.state != Synced && Fits(l, e, m)
    requires e.nb.neighborSn == m.mySn && e.nb.syncSn == m.syncSn
    ensures var f := e.nb.Install(m.trees);
            && NbCore(l, e.me, e.peer, f.(syncSn := f.syncSn + 1))
            && f == e.nb.(upstream := f.upstream)
  {
    var b := Adopted(e.peer, e.nb);
    var a := Adjacency(e.me, e.nb);
    var f := e.nb.Install(m.trees);
    InstallEffect(e.nb, m.trees, Tree(0, 0));
    InstallKeepsReplays(l.sent, e.me, e.peer, e.nb, e.nb.syncSn, l.snaps[b], l.got[a]);
    var g := f.(syncSn := f.syncSn + 1);
    assert Adjacency(e.me, g) == a && Adopted(e.peer, g) == b;
    assert Replays(l.sent, e.me, e.peer, g, g.syncSn, l.snaps[b], l.got[a]) by {
      assert Replays(l.sent, e.me, e.peer, f, e.nb.syncSn + 1, l.snaps[b], l.got[a]);
      ReplaysIgnoresPhase(l.sent, e.me, e.peer, f, g, e.nb.syncSn + 1, l.snaps[b], l.got[a]);
    }
  }

  lemma ReplaysIgnoresPhase(sent: set<Packet>, at: Ip, peer: Ip, nb: Nb, other: Nb, k: nat, s: Snap, got: map<Tree, nat>)
    requires Replays(sent, at, peer, nb, k, s, got)
    requires other.upstream == nb.upstream && other.interest == nb.interest
    requires other.neighborSn == nb.neighborSn && other.timeOfBoot == nb.timeOfBoot
    ensures Replays(sent, at, peer, other, k, s, got)
  {
    forall t | t in got
      ensures exists kind :: Said(sent, peer, at, Msg(Stamp(other.timeOfBoot, got[t]), t, kind)) && Holds(other, t, kind)
    {
      var kind :| Said(sent, peer, at, Msg(Stamp(nb.timeOfBoot, got[t]), t, kind)) && Holds(nb, t, kind);
      assert Holds(other, t, kind);
    }
  }

  /** Both ends are out of trees: what is installed is the whole snapshot. */
  lemma FinishOk(l: Link, e: End, m: Packet)
    requires NbCore(l, e.me, e.peer, e.nb) && e.nb.state != Synced && Fits(l, e, m)
    requires e.nb.neighborSn == m.mySn && e.nb.syncSn == m.syncSn && m.syncSn > 0
    requires !m.more && !More(e.nb.myTable, e.nb.fragmentation, e.nb.syncSn)
    ensures NbOk(l, e.me, e.peer, e.FinishSync().nb)
  {
    var b := Adopted(e.peer, e.nb);
    var a := Adjacency(e.me, e.nb);
    var g := e.FinishSync().nb;
    assert Adjacency(e.me, g) == a && Adopted(e.peer, g) == b;
    ReplaysIgnoresPhase(l.sent, e.me, e.peer, e.nb, g, e.nb.syncSn, l.snaps[b], l.got[a]);
  }

  predicate Outdated(e: End, m: Packet)
    requires m.Sync?
  {
    e.Adopt(m.mySn).nb.neighborSn < m.mySn
  }

  lemma MasterSyncOk(l: Link, e: End, m: Packet, env: Env)
    requires NbCore(l, e.me, e.peer, e.nb) && e.nb.state == Master && Fits(l, e, m) && !Outdated(e, m)
    requires e.nb.syncSn >= 1 || (m.master && m.syncSn == 0 && e.nb.neighborSn in {0, m.mySn})
    ensures var o := e.MasterSync(m, env);
            && o.end == e.(nb := o.end.nb) && !o.delivered && SyncsSent(l, e, o)
            && NbOk(l, e.me, e.peer, o.end.nb) && Adjacency(e.me, o.end.nb) == Adjacency(e.me, e.nb)
            && (o.end.nb.neighborSn == e.nb.neighborSn || (e.nb.neighborSn == 0 && o.end.nb.neighborSn == m.mySn))
  {
    AdoptOk(l, e, m);
    var f := e.Adopt(m.mySn);
    if f.nb.neighborSn == m.mySn && m.syncSn == f.nb.syncSn && m.master
       && (m.syncSn == 0 || f.nb.mySn == m.neighborSn) {
      AdvanceOk(l, f, m);
      var g := f.(nb := f.nb.Install(m.trees));
      SyncPacketOk(l, f, f.nb.syncSn, false);
      if m.syncSn > 0 && !m.more && !g.SyncPacket(g.nb.syncSn, false).more {
        InstallNothing(l, f, m);
        FinishOk(l, f, m);
      }
    }
  }

  /** The last fragment of a snapshot is empty. */
  lemma InstallNothing(l: Link, e: End, m: Packet)
    requires Fits(l, e, m) && !m.more
    ensures e.nb.Install(m.trees) == e.nb
  {
    var s := l.snaps[AdjId(m.src, Stamp(m.bootTime, m.mySn))];
    InstalledAll(s, m.syncSn);
  }

  /** The end with the lower address yields and lets the neighbour drive. */
  lemma YieldOk(l: Link, e: End, m: Packet, env: Env)
    requires NbOk(l, e.me, e.peer, e.nb) && e.nb.state == Slave && Fits(l, e, m)
    requires e.nb.neighborSn == m.mySn && e.nb.syncSn == m.syncSn == 0 && m.master
    ensures var o := e.(nb := e.nb.(state := Master, syncSn := 0)).MasterSync(m, env);
            && o.end == e.(nb := o.end.nb) && !o.delivered && SyncsSent(l, e, o)
            && NbOk(l, e.me, e.peer, o.end.nb) && Adjacency(e.me, o.end.nb) == Adjacency(e.me, e.nb)
            && o.end.nb.neighborSn == e.nb.neighborSn
  {
    var g := e.(nb := e.nb.(state := Master, syncSn := 0));
    var b := Adopted(e.peer, e.nb);
    ReplaysIgnoresPhase(l.sent, e.me, e.peer, e.nb, g.nb, 0, l.snaps[b], l.got[Adjacency(e.me, e.nb)]);
    assert NbCore(l, e.me, e.peer, g.nb);
    MasterSyncOk(l, g, m, env);
  }

  /** The driving end got the answer to its last Sync. */
  lemma AnsweredOk(l: Link, e: End, m: Packet)
    requires NbOk(l, e.me, e.peer, e.nb) && e.nb.state == Slave && Fits(l, e, m)
    requires e.nb.neighborSn == m.mySn && e.nb.syncSn == m.syncSn
    ensures var g := e.(nb := e.nb.(syncSn := e.nb.syncSn + 1).Install(m.trees));
            && NbOk(l, e.me, e.peer, g.nb) && Adjacency(e.me, g.nb) == Adjacency(e.me, e.nb)
            && g.nb.neighborSn == e.nb.neighborSn
            && SyncOk(l.snaps, g.SyncPacket(g.nb.syncSn, true))
  {
    AdvanceOk(l, e, m);
    InstallIgnoresSyncSn(e.nb, m.trees, e.nb.syncSn + 1);
    var g := e.(nb := e.nb.(syncSn := e.nb.syncSn + 1).Install(m.trees));
    SyncPacketOk(l, g, g.nb.syncSn, true);
  }

  /** The record moved on within its adjacency, and what was sent is true. */
  ghost predicate TurnOk(l: Link, e: End, o: Outcome) {
    && o.end == e.(nb := o.end.nb) && !o.delivered && SyncsSent(l, e, o)
    && NbOk(l, e.me, e.peer, o.end.nb) && Adjacency(e.me, o.end.nb) == Adjacency(e.me, e.nb)
    && o.end.nb.neighborSn == e.nb.neighborSn
  }

  lemma CollisionOk(l: Link, e: End, m: Packet, env: Env)
    requires NbOk(l, e.me, e.peer, e.nb) && e.nb.state == Slave && Fits(l, e, m)
    requires e.nb.neighborSn == m.mySn && m.syncSn == e.nb.syncSn == 0 && m.master
    ensures TurnOk(l, e, e.SlaveTurn(m, env))
  {
    if e.me < e.peer {
      YieldOk(l, e, m, env);
    } else {
      SyncPacketOk(l, e, e.nb.syncSn, true);
    }
  }

  lemma SlaveTurnOk(l: Link, e: End, m: Packet, env: Env)
    requires NbOk(l, e.me, e.peer, e.nb) && e.nb.state == Slave && Fits(l, e, m)
    requires e.nb.neighborSn == m.mySn && m.syncSn == e.nb.syncSn
    ensures TurnOk(l, e, e.SlaveTurn(m, env))
  {
    if m.syncSn == 0 && m.master {
      CollisionOk(l, e, m, env);
    } else if !m.master && e.nb.mySn == m.neighborSn {
      if m.syncSn > 0 && !More(e.nb.myTable, e.nb.fragmentation, e.nb.syncSn) && !m.more {
        FinishOk(l, e, m);
      } else {
        AnsweredOk(l, e, m);
      }
    }
  }

  lemma SlaveSyncOk(l: Link, e: End, m: Packet, env: Env)
    requires NbOk(l, e.me, e.peer, e.nb) && e.nb.state == Slave && Fits(l, e, m) && !Outdated(e, m)
    ensures var o := e.SlaveSync(m, env);
            && o.end == e.(nb := o.end.nb) && !o.delivered && SyncsSent(l, e, o)
            && NbOk(l, e.me, e.peer, o.end.nb) && Adjacency(e.me, o.end.nb) == Adjacency(e.me, e.nb)
            && (o.end.nb.neighborSn == e.nb.neighborSn || (e.nb.neighborSn == 0 && o.end.nb.neighborSn == m.mySn))
  {
    AdoptOk(l, e, m);
    var f := e.Adopt(m.mySn);
    if f.nb.neighborSn == m.mySn && m.syncSn == f.nb.syncSn {
      SlaveTurnOk(l, f, m, env);
    }
  }

  lemma {:induction false} InstallIgnoresSyncSn(nb: Nb, trees: seq<Entry>, k: nat)
    ensures nb.(syncSn := k).Install(trees) == nb.Install(trees).(syncSn := k)
    decreases |trees|
  {
    if trees != [] {
      var e := trees[0];
      var next := if GetOr(nb.lastSn, e.tree, 0) > nb.neighborSn then nb
                  else nb.(upstream := nb.upstream[e.tree := e.metric]);
      InstallIgnoresSyncSn(next, trees[1..], k);
    }
  }

  lemma SyncedSyncOk(l: Link, e: End, m: Packet, env: Env)
    requires NbOk(l, e.me, e.peer, e.nb) && e.nb.state == Synced && Fits(l, e, m) && e.nb.neighborSn >= m.mySn
    ensures var o := e.SyncedSync(m, env); o.end == e && !o.delivered && SyncsSent(l, e, o)
  {
    var s := l.snaps[Adjacency(e.me, e.nb)];
    InstalledAll(s, e.nb.syncSn);
  }

  // ----- Reliable messages and CheckpointSN -----

  /** A delivered message replaces what was stored about its tree and touches no other tree. */
  lemma HeardReplays(sent: set<Packet>, sent2: set<Packet>, at: Ip, peer: Ip, nb: Nb, m: Msg, s: Snap, got: map<Tree, nat>)
    requires Replays(sent, at, peer, nb, nb.syncSn, s, got) && sent <= sent2
    requires Said(sent2, peer, at, m) && m.stamp.bootTime == nb.timeOfBoot && m.stamp.sn > nb.neighborSn
    ensures Replays(sent2, at, peer, nb.(lastSn := nb.lastSn[m.tree := m.stamp.sn]).Apply(m.tree, m.kind), nb.syncSn, s,
                    got[m.tree := m.stamp.sn])
  {
    var r := nb.(lastSn := nb.lastSn[m.tree := m.stamp.sn]).Apply(m.tree, m.kind);
    var got2: map<Tree, nat> := got[m.tree := m.stamp.sn];
    forall t | t in got2
      ensures exists kind :: Said(sent2, peer, at, Msg(Stamp(r.timeOfBoot, got2[t]), t, kind)) && Holds(r, t, kind)
    {
      if t == m.tree {
        assert m == Msg(Stamp(r.timeOfBoot, got2[t]), t, m.kind);
        assert Holds(r, t, m.kind);
      } else {
        var kind :| Said(sent, peer, at, Msg(Stamp(nb.timeOfBoot, got[t]), t, kind)) && Holds(nb, t, kind);
        assert Said(sent2, peer, at, Msg(Stamp(r.timeOfBoot, got2[t]), t, kind)) && Holds(r, t, kind);
      }
    }
  }

  lemma MoreSentReplays(sent: set<Packet>, sent2: set<Packet>, at: Ip, peer: Ip, nb: Nb, k: nat, s: Snap, got: map<Tree, nat>)
    requires Replays(sent, at, peer, nb, k, s, got) && sent <= sent2
    ensures Replays(sent2, at, peer, nb, k, s, got)
  {
    forall t | t in got
      ensures exists kind :: Said(sent2, peer, at, Msg(Stamp(nb.timeOfBoot, got[t]), t, kind)) && Holds(nb, t, kind)
    {
      var kind :| Said(sent, peer, at, Msg(Stamp(nb.timeOfBoot, got[t]), t, kind)) && Holds(nb, t, kind);
      assert Said(sent2, peer, at, Msg(Stamp(nb.timeOfBoot, got[t]), t, kind));
    }
  }

  predicate SamePhase(nb: Nb, r: Nb) {
    r == nb.(interest := r.interest, upstream := r.upstream, lastSn := r.lastSn, checkpoint := r.checkpoint)
  }

  /** A handler that only touches the stored state needs only the stored state looked at. */
  lemma StoredOk(l: Link, l2: Link, at: Ip, peer: Ip, nb: Nb, r: Nb)
    requires NbOk(l, at, peer, nb) && SamePhase(nb, r) && nb.neighborSn != 0 && nb.syncSn != 0
    requires l2.snaps == l.snaps && Adjacency(at, nb) in l2.got
    requires Pruned(r, l2.got[Adjacency(at, nb)])
    requires Replays(l2.sent, at, peer, r, nb.syncSn, l.snaps[Adopted(peer, nb)], l2.got[Adjacency(at, nb)])
    ensures NbOk(l2, at, peer, r)
  {
  }

  lemma DeliveredIsPruned(nb: Nb, got: map<Tree, nat>, m: Msg)
    requires Pruned(nb, got) && m.stamp.sn >= 1
    ensures Pruned(nb.(lastSn := nb.lastSn[m.tree := m.stamp.sn]).Apply(m.tree, m.kind), got[m.tree := m.stamp.sn])
  {
  }

  lemma DeliveredOk(l: Link, l2: Link, e: End, m: Msg)
    requires NbOk(l, e.me, e.peer, e.nb) && e.nb.neighborSn != 0 && e.nb.syncSn != 0
    requires Said(l.sent, e.peer, e.me, m) && m.stamp.bootTime == e.nb.timeOfBoot
    requires m.stamp.sn > e.nb.neighborSn && m.stamp.sn > e.nb.checkpoint
    requires l2.snaps == l.snaps && l.sent <= l2.sent && l2.got == Note(l.got, Adjacency(e.me, e.nb), m)
    ensures NbOk(l2, e.me, e.peer, e.nb.(lastSn := e.nb.lastSn[m.tree := m.stamp.sn]).Apply(m.tree, m.kind))
  {
    var a := Adjacency(e.me, e.nb);
    var r := e.nb.(lastSn := e.nb.lastSn[m.tree := m.stamp.sn]).Apply(m.tree, m.kind);
    HeardReplays(l.sent, l2.sent, e.me, e.peer, e.nb, m, l.snaps[Adopted(e.peer, e.nb)], l.got[a]);
    DeliveredIsPruned(e.nb, l.got[a], m);
    StoredOk(l, l2, e.me, e.peer, e.nb, r);
  }

  lemma MoreSentOk(l: Link, l2: Link, at: Ip, peer: Ip, nb: Nb)
    requires NbOk(l, at, peer, nb) && l.sent <= l2.sent
    requires var a := Adjacency(at, nb); a in l2.snaps && l2.snaps[a] == l.snaps[a] && a in l2.got && l2.got[a] == l.got[a]
    requires nb.neighborSn != 0 ==> Adopted(peer, nb) in l2.snaps && l2.snaps[Adopted(peer, nb)] == l.snaps[Adopted(peer, nb)]
    ensures NbOk(l2, at, peer, nb)
  {
    if nb.neighborSn != 0 {
      MoreSentReplays(l.sent, l2.sent, at, peer, nb, nb.syncSn, l.snaps[Adopted(peer, nb)], l.got[Adjacency(at, nb)]);
    }
  }

  /** What is acked has been delivered, itself or, as a duplicate, before. */
  lemma AckedIsDelivered(l: Link, e: End, m: Packet, env: Env)
    requires NbOk(l, e.me, e.peer, e.nb)
    requires m.Reliable? && m.msg.stamp.sn >= 1 && m.msg.stamp.bootTime == e.nb.timeOfBoot
    ensures var o := e.ReceiveReliable(m, env);
            var got := l.got[Adjacency(e.me, e.nb)];
            && o.end == e.(nb := o.end.nb)
            && Adjacency(e.me, o.end.nb) == Adjacency(e.me, e.nb) && o.end.nb.neighborSn == e.nb.neighborSn
            && o.end.nb.timeOfBoot == e.nb.timeOfBoot && o.end.nb.checkpoint == e.nb.checkpoint
            && (o.delivered ==> GetOr(got, m.msg.tree, 0) < m.msg.stamp.sn)
            && (o.out != [] && !o.delivered ==> m.msg.tree in got && got[m.msg.tree] == m.msg.stamp.sn)
            && (o.out != [] ==> e.nb.neighborSn != 0)
  {
  }

  lemma HelloOk(l: Link, e: End, c: nat)
    requires NbOk(l, e.me, e.peer, e.nb) && e.nb.state == Synced
    ensures NbOk(l, e.me, e.peer, e.nb.SetCheckpoint(c))
  {
    var g := e.nb.SetCheckpoint(c);
    var a := Adjacency(e.me, e.nb);
    var b := Adopted(e.peer, e.nb);
    assert Adjacency(e.me, g) == a && Adopted(e.peer, g) == b;
    if e.nb.neighborSn != 0 {
      ReplaysIgnoresPhase(l.sent, e.me, e.peer, e.nb, g, e.nb.syncSn, l.snaps[b], l.got[a]);
    }
  }
}
