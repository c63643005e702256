/** What a router tells its neighbours of a tree, by announcing it, by listing it in snapshots and by
    asking for it, agrees or not with its own table: when exactly. */
module LinkTable {
  import opened Types
  import opened Metrics
  import opened ReliableSpec
  import opened NeighborSpec
  import opened Link
  import opened LinkInv
  import opened LinkNb
  import opened LinkFlight
  import opened LinkSteps
  import opened LinkDeliver
  import opened LinkTheorems

  /** The handler takes a new snapshot. */
  predicate Snapshots(l: Link, at: Ip, p: Packet, env: Env)
    requires at in l.routers
  {
    !Dropped(l.routers[at], p) && Adjacency(at, Handle(l.routers[at], at, p, env).end.nb) !in l.snaps
  }

  /** The step tells somebody something else about `t` than the table of `s` says: a snapshot has it
      differently, or interest is told although the tree is announced. */
  predicate Contradicts(l: Link, a: Action, s: Ip, t: Tree)
    requires a.at in l.routers
  {
    a.at == s &&
    match a
    case Deliver(at, p, env) => Snapshots(l, at, p, env) && Lookup(env.listing, t) != Get(l.routers[at].table, t)
    case Signal(at, u, _, _, _) => u == t && t in l.routers[at].table
    case _ => false
  }

  /** The step tells everybody what the table says from then on. */
  predicate Renews(a: Action, s: Ip, t: Tree) {
    a.at == s && (a.Restart? || (a.Announce? && a.tree == t))
  }

  // ----- What a handler leaves of the stamps -----

  /** No reliable message is sent, and the record stands for a snapshot that was taken just now, or for
      the one it stood for, and then interest is stored as it was unless a message was delivered. */
  ghost predicate Placed(e: End, o: Outcome) {
    && (forall p :: p in o.out ==> !p.Reliable?)
    && (TakenNow(e.iface, o)
        || (Taken(o.end.nb) == Taken(e.nb) && (o.delivered || o.end.nb.interest == e.nb.interest)))
  }

  function Taken(nb: Nb): Stamp {
    Stamp(nb.myBootTime, nb.mySn)
  }

  ghost predicate TakenNow(i: Iface, o: Outcome) {
    Taken(o.end.nb) == o.end.iface.Now() && Before(i.Now(), o.end.iface.Now())
  }

  lemma MasterIsPlaced(e: End, m: Packet, env: Env)
    requires m.Sync?
    requires env.clock > e.iface.bootTime || (e.nb.syncSn == 0 && e.nb.neighborSn == 0)
    ensures Placed(e, e.MasterSync(m, env))
  {
    InstallEffect(e.Adopt(m.mySn).nb, m.trees, Tree(0, 0));
  }

  lemma SlaveIsPlaced(e: End, m: Packet, env: Env)
    requires m.Sync? && env.clock > e.iface.bootTime
    ensures Placed(e, e.SlaveSync(m, env))
  {
    var f := e.Adopt(m.mySn);
    InstallEffect(f.nb.(syncSn := f.nb.syncSn + 1), m.trees, Tree(0, 0));
    MasterIsPlaced(f.(nb := f.nb.(state := Master, syncSn := 0)), m, env);
  }

  lemma UnknownIsPlaced(e: End, m: Packet, env: Env)
    requires m.Sync? && env.clock > e.iface.bootTime
    ensures Placed(e, e.UnknownSync(m, env)) && TakenNow(e.iface, e.UnknownSync(m, env))
  {
    MeetShape(e, env);
    SnappedShape(e.iface, e.peer, env.clock);
    var f := e.(nb := e.nb.(state := Master)).StartSnapshot(env);
    MasterIsPlaced(f.(nb := f.nb.Forget()), m, env);
    InstallEffect(f.(nb := f.nb.Forget()).Adopt(m.mySn).nb, m.trees, Tree(0, 0));
    ResetIsPlaced(e, e.nb.timeOfBoot, env);
  }

  lemma ResetIsPlaced(e: End, boot: nat, env: Env)
    requires env.clock > e.iface.bootTime
    ensures Placed(e, e.Reset(boot, env))
  {
    SnappedShape(e.iface, e.peer, env.clock);
  }

  lemma SyncIsPlaced(e: End, m: Packet, env: Env)
    requires m.Sync? && env.clock > e.iface.bootTime
    ensures Placed(e, e.ReceiveSync(m, env))
  {
    ResetIsPlaced(e, m.bootTime, env);
    ResetIsPlaced(e, e.nb.timeOfBoot, env);
    match e.nb.state
    case Unknown => UnknownIsPlaced(e, m, env);
    case Master => MasterIsPlaced(e, m, env);
    case Slave => SlaveIsPlaced(e, m, env);
    case Synced =>
  }

  lemma ReceivedIsPlaced(e: End, p: Packet, env: Env)
    requires env.clock > e.iface.bootTime
    ensures Placed(e, e.Receive(p, env))
  {
    match p
    case Sync(_, _, _, _, _, _, _, _, _, _) => SyncIsPlaced(e, p, env);
    case Hello(_, boot, _) => ResetIsPlaced(e, boot, env);
    case Reliable(_, _, m) => ResetIsPlaced(e, m.stamp.bootTime, env);
    case Ack(_, _, boot, _, _, _, _, _) => ResetIsPlaced(e, boot, env);
  }

  lemma StrangerIsPlaced(r: Router, at: Ip, p: Packet, env: Env)
    requires EnvOk(r, env) && p.src !in r.nbs && !Dropped(r, p)
    ensures var o := Handle(r, at, p, env); TakenNow(r.iface, o) && forall q :: q in o.out ==> !q.Reliable?
  {
    var boot := if p.Reliable? then p.msg.stamp.bootTime else p.bootTime;
    var e := End(at, p.src, r.iface.(neighbors := r.iface.neighbors + {p.src}), NewNb(boot, r.iface.bootTime));
    if p.Sync? {
      UnknownIsPlaced(e, p, env);
    } else {
      ResetShape(e, boot, env);
      SnappedShape(e.iface, p.src, env.clock);
    }
  }

  // ----- One step -----

  lemma HandledHistory(l: Link, at: Ip, p: Packet, env: Env)
    requires Inv(l) && Enabled(l, Deliver(at, p, env)) && !Dropped(l.routers[at], p)
    ensures var o := Handle(l.routers[at], at, p, env);
            && (forall q :: q in o.out ==> !q.Reliable?)
            && (Adjacency(at, o.end.nb) !in l.snaps ==> AtMost(l.routers[at].iface.Now(), Taken(o.end.nb)))
  {
    var r := l.routers[at];
    if p.src in r.nbs {
      ReceivedIsPlaced(End(at, p.src, r.iface, r.nbs[p.src]), p, env);
      RecordFacts(l, at, p.src);
    } else {
      StrangerIsPlaced(r, at, p, env);
    }
  }

  /** What a handler adds to the history: no reliable message, and a snapshot only with a new stamp. */
  lemma DeliverHistory(l: Link, at: Ip, p: Packet, env: Env)
    requires Inv(l) && Enabled(l, Deliver(at, p, env))
    ensures var l2 := AfterDeliver(l, at, p, env);
            && l2.routers.Keys == l.routers.Keys && l.sent <= l2.sent
            && l2.routers[at].table == l.routers[at].table && l2.routers[at].born == l.routers[at].born
            && (forall q :: q in l2.sent && q !in l.sent ==> !q.Reliable?)
            && (forall r :: r in l.routers && r != at ==> l2.routers[r] == l.routers[r])
    ensures var l2 := AfterDeliver(l, at, p, env);
            if Snapshots(l, at, p, env) then
              var a := Adjacency(at, Handle(l.routers[at], at, p, env).end.nb);
              && l2.snaps == l.snaps[a := l2.snaps[a]] && l2.snaps[a].listing == env.listing
              && AtMost(l.routers[at].iface.Now(), a.stamp)
            else l2.snaps == l.snaps
  {
    if !Dropped(l.routers[at], p) {
      HandledHistory(l, at, p, env);
    }
  }

  /** Nothing was said about the tree and every old snapshot is there: what was true before is so. */
  ghost predicate SameWords(l: Link, l2: Link, s: Ip, t: Tree) {
    && s in l.routers && s in l2.routers && l.sent <= l2.sent
    && (forall p :: p in l2.sent && p !in l.sent && p.Reliable? ==> p.src != s || p.msg.tree != t)
    && Get(l2.routers[s].table, t) == Get(l.routers[s].table, t) && l2.routers[s].born == l.routers[s].born
    && (forall a :: a in l.snaps ==> a in l2.snaps && l2.snaps[a] == l.snaps[a])
  }

  lemma SameWordsSame(l: Link, l2: Link, s: Ip, t: Tree)
    requires SameWords(l, l2, s, t)
    ensures forall p :: p in l.sent && p.Reliable? && p.msg.tree == t ==>
              (Last(l2.sent, s, l.routers[s].born, p) <==> Last(l.sent, s, l.routers[s].born, p))
    ensures forall stamp :: AllSnapped(l2.sent, s, l.routers[s].born, t, stamp) <==> AllSnapped(l.sent, s, l.routers[s].born, t, stamp)
  {
    forall stamp: Stamp
      ensures AllBefore(l2.sent, s, l.routers[s].born, t, stamp) <==> AllBefore(l.sent, s, l.routers[s].born, t, stamp)
    {
      if AllBefore(l.sent, s, l.routers[s].born, t, stamp) {
        assert forall q :: q in l2.sent && Says(q, s, l.routers[s].born, t) ==> q in l.sent;
      }
    }
  }

  lemma UntouchedTruth(l: Link, l2: Link, s: Ip, t: Tree)
    requires SameWords(l, l2, s, t) && forall a :: a in l2.snaps && a.router == s ==> a in l.snaps
    ensures Truthful(l2, s, t) <==> Truthful(l, s, t)
  {
    SameWordsSame(l, l2, s, t);
  }

  /** Everything was said by now, so a new snapshot is later than all of it. */
  lemma SnapshotTruth(l: Link, l2: Link, s: Ip, t: Tree, a: AdjId)
    requires Inv(l) && SameWords(l, l2, s, t) && a !in l.snaps && l2.snaps.Keys == l.snaps.Keys + {a}
    requires a.router == s && AtMost(l.routers[s].iface.Now(), a.stamp)
    ensures Truthful(l2, s, t) <==> Truthful(l, s, t) && Lookup(l2.snaps[a].listing, t) == Get(l.routers[s].table, t)
  {
    SameWordsSame(l, l2, s, t);
    AllSentByNow(l, s);
    assert RouterOk(l, s);
    assert AllSnapped(l.sent, s, l.routers[s].born, t, a.stamp);
  }

  lemma DeliverTruth(l: Link, at: Ip, p: Packet, env: Env, s: Ip, t: Tree)
    requires Inv(l) && Enabled(l, Deliver(at, p, env)) && s in l.routers
    ensures var l2 := AfterDeliver(l, at, p, env);
            s in l2.routers && (Truthful(l2, s, t) <==> Truthful(l, s, t) && !Contradicts(l, Deliver(at, p, env), s, t))
  {
    DeliverWords(l, at, p, env, s, t);
    if at == s && Snapshots(l, at, p, env) {
      DeliverSnapshot(l, at, p, env);
      SnapshotTruth(l, AfterDeliver(l, at, p, env), s, t, Adjacency(at, Handle(l.routers[at], at, p, env).end.nb));
    } else {
      UntouchedTruth(l, AfterDeliver(l, at, p, env), s, t);
    }
  }

  lemma DeliverWords(l: Link, at: Ip, p: Packet, env: Env, s: Ip, t: Tree)
    requires Inv(l) && Enabled(l, Deliver(at, p, env)) && s in l.routers
    ensures var l2 := AfterDeliver(l, at, p, env);
            SameWords(l, l2, s, t)
            && (at != s || !Snapshots(l, at, p, env) ==> forall a :: a in l2.snaps && a.router == s ==> a in l.snaps)
  {
    DeliverHistory(l, at, p, env);
  }

  lemma DeliverSnapshot(l: Link, at: Ip, p: Packet, env: Env)
    requires Inv(l) && Enabled(l, Deliver(at, p, env)) && Snapshots(l, at, p, env)
    ensures var l2, a := AfterDeliver(l, at, p, env), Adjacency(at, Handle(l.routers[at], at, p, env).end.nb);
            && l2.snaps.Keys == l.snaps.Keys + {a} && l2.snaps[a].listing == env.listing
            && AtMost(l.routers[at].iface.Now(), a.stamp)
  {
    DeliverHistory(l, at, p, env);
  }

  /** The announcement is the last word on the tree, and no snapshot is later. */
  lemma AnnounceTruth(l: Link, s: Ip, t: Tree, metric: Option<Metric>, clock: nat)
    requires Inv(l) && Enabled(l, Announce(s, t, metric, clock))
    ensures Truthful(Next(l, Announce(s, t, metric, clock)), s, t)
  {
    var r := l.routers[s];
    var (q, p) := AfterAnnounce(r, s, t, metric, clock);
    var l2 := Next(l, Announce(s, t, metric, clock));
    assert RouterOk(l, s);
    AllSentByNow(l, s);
    AnnounceShape(r.iface, t, p.msg.kind, clock);
    assert Says(p, s, r.born, t);
    forall a | a in l2.snaps && a.router == s ensures !AllSnapped(l2.sent, s, r.born, t, a.stamp) {
      assert TakenOk(l, a);
    }
  }

  lemma SignalTruth(l: Link, s: Ip, t: Tree, interested: bool, to: Ip, clock: nat)
    requires Inv(l) && Enabled(l, Signal(s, t, interested, to, clock))
    ensures Truthful(Next(l, Signal(s, t, interested, to, clock)), s, t) <==> Truthful(l, s, t) && t !in l.routers[s].table
  {
    var (q, p) := AfterSignal(l.routers[s], s, t, interested, to, clock);
    var l2 := Next(l, Signal(s, t, interested, to, clock));
    assert RouterOk(l, s);
    AllSentByNow(l, s);
    SignalShape(l.routers[s].iface, t, p.msg.kind, to, clock);
    QuestionTruth(l, l2, s, t, p);
  }

  /** The question is the last word on the tree. */
  lemma QuestionTruth(l: Link, l2: Link, s: Ip, t: Tree, p: Packet)
    requires s in l.routers && s in l2.routers && l2.snaps == l.snaps && l2.sent == l.sent + {p}
    requires l2.routers[s].table == l.routers[s].table && l2.routers[s].born == l.routers[s].born
    requires p.Reliable? && p.src == s && p.to.Some? && p.msg.tree == t && Effect(p.msg.kind) == None
    requires p.msg.stamp.bootTime >= l.routers[s].born && SentByNow(l.sent, s, p.msg.stamp)
    ensures Truthful(l2, s, t) <==> Truthful(l, s, t) && t !in l.routers[s].table
  {
    var born := l.routers[s].born;
    forall stamp: Stamp ensures AllBefore(l2.sent, s, born, t, stamp) <==> AllBefore(l.sent, s, born, t, stamp) {
      assert forall x :: x in l2.sent && Says(x, s, born, t) ==> x in l.sent;
    }
    assert Last(l2.sent, s, born, p);
    assert forall x :: x in l.sent && x.Reliable? && x.msg.tree == t ==> (Last(l2.sent, s, born, x) <==> Last(l.sent, s, born, x));
  }

  lemma RestartTruth(l: Link, s: Ip, clock: nat, table: map<Tree, Metric>, t: Tree)
    requires Inv(l) && Enabled(l, Restart(s, clock, table))
    ensures Truthful(Next(l, Restart(s, clock, table)), s, t)
  {
    forall p | p in l.sent && p.Reliable? && p.src == s ensures p.msg.stamp.bootTime < clock {
      assert SentOk(l, p);
    }
    forall a | a in l.snaps && a.router == s ensures a.stamp.bootTime < clock {
      assert TakenOk(l, a);
    }
  }

  /** No other step says anything about the tree. */
  lemma QuietWords(l: Link, a: Action, s: Ip, t: Tree)
    requires Inv(l) && Enabled(l, a) && s in l.routers && !a.Deliver? && !Renews(a, s, t)
    requires a.Signal? && a.at == s ==> a.tree != t
    ensures SameWords(l, Next(l, a), s, t) && Next(l, a).snaps == l.snaps
  {
    match a
    case SyncTimer(at, peer) => TimeoutIsQuiet(l, at, peer);
    case _ =>
  }

  lemma TimeoutIsQuiet(l: Link, at: Ip, peer: Ip)
    requires at in l.routers
    ensures var l2 := Next(l, SyncTimer(at, peer));
            l.sent <= l2.sent && forall p :: p in l2.sent && p !in l.sent ==> p.Sync?
  {
  }

  /** What the router told of the tree agrees with its table after a step exactly if the step put it
      right, or it was right and the step did not contradict it. */
  lemma TruthStep(l: Link, a: Action, s: Ip, t: Tree)
    requires Inv(l) && Enabled(l, a) && s in l.routers
    ensures s in Next(l, a).routers
    ensures Truthful(Next(l, a), s, t) <==> Renews(a, s, t) || (Truthful(l, s, t) && !Contradicts(l, a, s, t))
  {
    if a.Deliver? {
      DeliverTruth(l, a.at, a.packet, a.env, s, t);
    } else if Renews(a, s, t) {
      if a.Announce? {
        AnnounceTruth(l, s, t, a.metric, a.clock);
      } else {
        RestartTruth(l, s, a.clock, a.table, t);
      }
    } else if a.Signal? && a.at == s && a.tree == t {
      SignalTruth(l, s, t, a.interested, a.to, a.clock);
    } else {
      QuietWords(l, a, s, t);
      UntouchedTruth(l, Next(l, a), s, t);
    }
  }

  /** Every time a router contradicts its table it announces the tree again later. */
  ghost predicate Redeemed(ls: seq<Link>, actions: seq<Action>, k: nat, s: Ip, t: Tree)
    requires Run(ls, actions) && k <= |actions|
  {
    forall j :: 0 <= j < k && Contradicts(ls[j], actions[j], s, t) ==> exists m :: j < m < k && Renews(actions[m], s, t)
  }

  lemma TruthFrom(l: Link, l2: Link, a: Action, s: Ip, t: Tree)
    requires Inv(l) && Enabled(l, a) && l2 == Next(l, a) && s in l2.routers
    ensures s in l.routers && a.at in l.routers
    ensures Truthful(l2, s, t) <==> Renews(a, s, t) || (Truthful(l, s, t) && !Contradicts(l, a, s, t))
  {
    SameRouters(l, a);
    TruthStep(l, a, s, t);
  }

  lemma RunFacts(ls: seq<Link>, actions: seq<Action>, k: nat)
    requires Run(ls, actions) && 0 < k <= |actions|
    ensures Inv(ls[k - 1]) && Enabled(ls[k - 1], actions[k - 1]) && ls[k] == Next(ls[k - 1], actions[k - 1])
  {
    RunOk(ls, actions, k - 1);
  }

  lemma RunTruth(ls: seq<Link>, actions: seq<Action>, k: nat, s: Ip, t: Tree)
    requires Run(ls, actions) && 0 < k <= |actions| && s in ls[k].routers
    ensures s in ls[k - 1].routers
    ensures Truthful(ls[k], s, t) <==>
              Renews(actions[k - 1], s, t) || (Truthful(ls[k - 1], s, t) && !Contradicts(ls[k - 1], actions[k - 1], s, t))
  {
    RunFacts(ls, actions, k);
    TruthFrom(ls[k - 1], ls[k], actions[k - 1], s, t);
  }

  lemma SameRouters(l: Link, a: Action)
    requires Enabled(l, a)
    ensures Next(l, a).routers.Keys == l.routers.Keys
  {
  }

  /** Over every run: what a router told its neighbours of a tree is what its table says exactly if it
      never contradicted it, or announced the tree again, or came up again, after it last did. */
  lemma {:induction false} TruthfulExactlyIf(ls: seq<Link>, actions: seq<Action>, k: nat, s: Ip, t: Tree)
    requires Run(ls, actions) && k <= |actions| && s in ls[k].routers
    ensures Truthful(ls[k], s, t) <==> Redeemed(ls, actions, k, s, t)
  {
    if k == 0 {
      TruthfulAtFirst(ls, actions, s, t);
    } else {
      KnownBefore(ls, actions, k, s);
      TruthfulExactlyIf(ls, actions, k - 1, s, t);
      TruthfulOnwards(ls, actions, k, s, t);
    }
  }

  lemma KnownBefore(ls: seq<Link>, actions: seq<Action>, k: nat, s: Ip)
    requires Run(ls, actions) && 0 < k <= |actions| && s in ls[k].routers
    ensures s in ls[k - 1].routers
  {
    SameRouters(ls[k - 1], actions[k - 1]);
  }

  lemma TruthfulOnwards(ls: seq<Link>, actions: seq<Action>, k: nat, s: Ip, t: Tree)
    requires Run(ls, actions) && 0 < k <= |actions| && s in ls[k].routers && s in ls[k - 1].routers
    requires Truthful(ls[k - 1], s, t) <==> Redeemed(ls, actions, k - 1, s, t)
    ensures Truthful(ls[k], s, t) <==> Redeemed(ls, actions, k, s, t)
  {
    RunTruth(ls, actions, k, s, t);
    RedeemedStep(ls, actions, k, s, t);
  }

  lemma TruthfulAtFirst(ls: seq<Link>, actions: seq<Action>, s: Ip, t: Tree)
    requires Run(ls, actions) && s in ls[0].routers
    ensures Truthful(ls[0], s, t)
  {
  }

  lemma RedeemedStep(ls: seq<Link>, actions: seq<Action>, k: nat, s: Ip, t: Tree)
    requires Run(ls, actions) && 0 < k <= |actions|
    ensures Redeemed(ls, actions, k, s, t) <==>
              Renews(actions[k - 1], s, t)
              || (Redeemed(ls, actions, k - 1, s, t) && !Contradicts(ls[k - 1], actions[k - 1], s, t))
  {
  }

  /** So over every run a synchronised neighbour for which nothing is pending about a tree stores it
      as the router's table says, if the router announced the tree again after it last contradicted
      that table. */
  lemma AgreementOverRuns(ls: seq<Link>, actions: seq<Action>, k: nat, s: Ip, r: Ip, t: Tree)
    requires Run(ls, actions) && k <= |actions| && Matched(ls[k], s, r) && ls[k].routers[r].nbs[s].state == Synced
    requires !ls[k].routers[s].iface.Of(t).Pending(r) && Redeemed(ls, actions, k, s, t)
    ensures Get(ls[k].routers[r].nbs[s].upstream, t) == Get(ls[k].routers[s].table, t)
  {
    assert Run(ls[..k + 1], actions[..k]) && ls[k] == ls[..k + 1][|actions[..k]|];
    TruthfulExactlyIf(ls, actions, k, s, t);
    QuiescentAgreement(ls[k], s, r, t);
  }
}
