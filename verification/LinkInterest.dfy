/** Whether a neighbour counts as interested in a tree, over every run: exactly unless it is upstream
    itself, or the last it said about the tree is that it is not, and this was not forgotten since. */
module LinkInterest {
  import opened Types
  import opened ReliableSpec
  import opened NeighborSpec
  import opened Link
  import opened LinkInv
  import opened LinkDeliver
  import opened LinkTheorems
  import opened LinkTable
  import opened LinkBoot

  /** The step delivers a message of `s` about `t` to `r`. */
  predicate HearsOf(l: Link, a: Action, r: Ip, s: Ip, t: Tree) {
    && a.Deliver? && a.at == r && r in l.routers && a.packet.Reliable? && a.packet.src == s && a.packet.msg.tree == t
    && Handle(l.routers[r], r, a.packet, a.env).delivered
  }

  predicate Forgets(a: Action, r: Ip, t: Tree) {
    a.ForgetInterest? && a.at == r && a.tree == t
  }

  predicate Asks(kind: Kind) {
    kind.Interest? || kind.NoInterest?
  }

  function Got(l: Link, r: Ip, s: Ip): map<Tree, nat>
    requires Knows(l, r, s)
  {
    GetOr(l.got, Adjacency(r, l.routers[r].nbs[s]), map[])
  }

  /** What is noted at `r` of the message from `s` about `t`. */
  ghost predicate Noted(l: Link, r: Ip, s: Ip, t: Tree, p: Packet, kept: bool)
    requires p.Reliable?
  {
    && Knows(l, r, s) && p in l.sent && p.src == s && p.msg.tree == t && Relevant(p, r)
    && var nb := l.routers[r].nbs[s];
       && t in Got(l, r, s) && p.msg.stamp == Stamp(nb.timeOfBoot, Got(l, r, s)[t])
       && (t in nb.interest <==> Asks(p.msg.kind) && kept)
  }

  /** The record is the one it was, as far as the tree is concerned. */
  ghost predicate SameRecord(l: Link, l2: Link, r: Ip, s: Ip, t: Tree, forgets: bool)
    requires Knows(l2, r, s)
  {
    && Knows(l, r, s)
    && var nb, nb2 := l.routers[r].nbs[s], l2.routers[r].nbs[s];
       && nb2.timeOfBoot == nb.timeOfBoot && t in Got(l, r, s) && t in Got(l2, r, s) && Got(l2, r, s)[t] == Got(l, r, s)[t]
       && (t in nb2.interest <==> t in nb.interest && !forgets)
  }

  // ----- One step -----

  /** From `l` to `l2` the message was delivered to `r`. */
  ghost predicate DeliveredTo(l: Link, l2: Link, r: Ip, p: Packet)
    requires p.Reliable?
  {
    && Knows(l, r, p.src) && p.msg.stamp.bootTime == l.routers[r].nbs[p.src].timeOfBoot && l.sent <= l2.sent
    && var nb, m := l.routers[r].nbs[p.src], p.msg;
       && l2.routers == l.routers[r := l.routers[r].(
                          nbs := l.routers[r].nbs[p.src := nb.(lastSn := nb.lastSn[m.tree := m.stamp.sn]).Apply(m.tree, m.kind)])]
       && Adjacency(r, nb) in l.got && l2.got == Note(l.got, Adjacency(r, nb), m)
  }

  lemma DeliveredEffect(l: Link, r: Ip, p: Packet, env: Env)
    requires Inv(l) && Enabled(l, Deliver(r, p, env)) && p.Reliable? && Handle(l.routers[r], r, p, env).delivered
    ensures DeliveredTo(l, AfterDeliver(l, r, p, env), r, p)
  {
    var e := End(r, p.src, l.routers[r].iface, l.routers[r].nbs[p.src]);
    RecordFacts(l, r, p.src);
    DeliveredShape(e, p, env);
    var o := e.ReceiveReliable(p, env);
    DeliveredLink(l, r, p, env, o.end.nb, o.out[0]);
  }

  lemma HeardNow(l: Link, l2: Link, r: Ip, p: Packet)
    requires p.Reliable? && DeliveredTo(l, l2, r, p) && p in l.sent && Relevant(p, r)
    ensures Noted(l2, r, p.src, p.msg.tree, p, true)
  {
    assert Adjacency(r, l2.routers[r].nbs[p.src]) == Adjacency(r, l.routers[r].nbs[p.src]);
  }

  /** A message about another tree. */
  lemma HeardOther(l: Link, l2: Link, r: Ip, p: Packet, t: Tree)
    requires p.Reliable? && DeliveredTo(l, l2, r, p) && p.msg.tree != t && Knows(l2, r, p.src) && t in Got(l2, r, p.src)
    ensures SameRecord(l, l2, r, p.src, t, false)
  {
    assert Adjacency(r, l2.routers[r].nbs[p.src]) == Adjacency(r, l.routers[r].nbs[p.src]);
  }

  /** From `l` to `l2` the record of `s` became `nb`, and no message was delivered: the record moved on,
      or it is a new one. */
  ghost predicate QuietlyMoved(l: Link, l2: Link, r: Ip, s: Ip) {
    && Knows(l2, r, s)
    && var nb := l2.routers[r].nbs[s];
       var a := Adjacency(r, nb);
       if a in l.got then
         && l2.got == l.got && Knows(l, r, s) && Adjacency(r, l.routers[r].nbs[s]) == a
         && nb.timeOfBoot == l.routers[r].nbs[s].timeOfBoot && nb.interest == l.routers[r].nbs[s].interest
       else l2.got == l.got[a := map[]]
  }

  lemma NothingHeard(l: Link, l2: Link, r: Ip, s: Ip, t: Tree)
    requires QuietlyMoved(l, l2, r, s) && t in Got(l2, r, s)
    ensures SameRecord(l, l2, r, s, t, false)
  {
  }

  lemma KnownMoves(l: Link, r: Ip, p: Packet, env: Env)
    requires Inv(l) && Enabled(l, Deliver(r, p, env)) && !Dropped(l.routers[r], p) && Knows(l, r, p.src)
    requires !Handle(l.routers[r], r, p, env).delivered
    ensures var nb, nb2 := l.routers[r].nbs[p.src], Handle(l.routers[r], r, p, env).end.nb;
            || Adjacency(r, nb2) !in l.got
            || (Adjacency(r, nb2) == Adjacency(r, nb) && nb2.timeOfBoot == nb.timeOfBoot && nb2.interest == nb.interest)
  {
    var e := End(r, p.src, l.routers[r].iface, l.routers[r].nbs[p.src]);
    var o := e.Receive(p, env);
    ReceivedIsPlaced(e, p, env);
    if TakenNow(e.iface, o) {
      NewIsNewer(l, r, Adjacency(r, o.end.nb));
    } else {
      BootTakenOver(e, p, env);
      if BootOf(p) > e.nb.timeOfBoot {
        KeptIsNoNewer(l, r, p, env);
      }
    }
  }

  lemma KeptIsNoNewer(l: Link, r: Ip, p: Packet, env: Env)
    requires Enabled(l, Deliver(r, p, env)) && Knows(l, r, p.src) && Accepted(l.routers[r], p)
    requires BootOf(p) > l.routers[r].nbs[p.src].timeOfBoot
    ensures TakenNow(l.routers[r].iface, Handle(l.routers[r], r, p, env))
  {
    var e := End(r, p.src, l.routers[r].iface, l.routers[r].nbs[p.src]);
    ResetShape(e, BootOf(p), env);
    SnappedShape(e.iface, p.src, env.clock);
  }

  lemma NewIsNewer(l: Link, r: Ip, a: AdjId)
    requires Inv(l) && r in l.routers && a.router == r && Before(l.routers[r].iface.Now(), a.stamp)
    ensures a !in l.snaps && a !in l.got
  {
    assert a in l.snaps ==> TakenOk(l, a);
  }

  lemma PeerStays(r: Router, at: Ip, p: Packet, env: Env)
    ensures Handle(r, at, p, env).end.peer == p.src && Handle(r, at, p, env).end.me == at
  {
  }

  ghost predicate StaysOrIsNew(l: Link, r: Ip, s: Ip, nb2: Nb) {
    Adjacency(r, nb2) in l.got ==>
      && Knows(l, r, s)
      && var nb := l.routers[r].nbs[s];
         Adjacency(r, nb2) == Adjacency(r, nb) && nb2.timeOfBoot == nb.timeOfBoot && nb2.interest == nb.interest
  }

  lemma QuietRecord(l: Link, r: Ip, p: Packet, env: Env)
    requires Inv(l) && Enabled(l, Deliver(r, p, env)) && !Dropped(l.routers[r], p) && !Handle(l.routers[r], r, p, env).delivered
    ensures StaysOrIsNew(l, r, p.src, Handle(l.routers[r], r, p, env).end.nb)
  {
    if p.src in l.routers[r].nbs {
      KnownMoves(l, r, p, env);
    } else {
      StrangerIsPlaced(l.routers[r], r, p, env);
      NewIsNewer(l, r, Adjacency(r, Handle(l.routers[r], r, p, env).end.nb));
    }
  }

  lemma QuietDeliver(l: Link, r: Ip, p: Packet, env: Env)
    requires r in l.routers && !Dropped(l.routers[r], p) && !Handle(l.routers[r], r, p, env).delivered
    requires StaysOrIsNew(l, r, p.src, Handle(l.routers[r], r, p, env).end.nb)
    ensures QuietlyMoved(l, AfterDeliver(l, r, p, env), r, p.src)
  {
    PeerStays(l.routers[r], r, p, env);
  }

  lemma OwnDeliver(l: Link, r: Ip, p: Packet, env: Env, t: Tree)
    requires Inv(l) && Enabled(l, Deliver(r, p, env)) && !HearsOf(l, Deliver(r, p, env), r, p.src, t)
    requires Knows(AfterDeliver(l, r, p, env), r, p.src) && t in Got(AfterDeliver(l, r, p, env), r, p.src)
    ensures SameRecord(l, AfterDeliver(l, r, p, env), r, p.src, t, false)
  {
    var l2 := AfterDeliver(l, r, p, env);
    if !Dropped(l.routers[r], p) {
      if Handle(l.routers[r], r, p, env).delivered {
        OnlyReliableIsDelivered(l.routers[r], r, p, env);
        DeliveredEffect(l, r, p, env);
        HeardOther(l, l2, r, p, t);
      } else {
        QuietRecord(l, r, p, env);
        QuietDeliver(l, r, p, env);
        NothingHeard(l, l2, r, p.src, t);
      }
    }
  }

  lemma OnlyReliableIsDelivered(r: Router, at: Ip, p: Packet, env: Env)
    ensures Handle(r, at, p, env).delivered ==> p.Reliable?
  {
  }

  /** What another router handles moves another adjacency, */
  lemma OtherRouter(l: Link, x: Ip, p: Packet, env: Env, r: Ip, s: Ip, t: Tree)
    requires x in l.routers && x != r && Knows(AfterDeliver(l, x, p, env), r, s) && t in Got(AfterDeliver(l, x, p, env), r, s)
    ensures SameRecord(l, AfterDeliver(l, x, p, env), r, s, t, false)
  {
  }

  /** and so does a packet of another neighbour. */
  lemma OtherNeighbor(l: Link, r: Ip, p: Packet, env: Env, s: Ip, t: Tree)
    requires r in l.routers && p.src != s && Inv(AfterDeliver(l, r, p, env))
    requires Knows(AfterDeliver(l, r, p, env), r, s) && t in Got(AfterDeliver(l, r, p, env), r, s)
    ensures SameRecord(l, AfterDeliver(l, r, p, env), r, s, t, false)
  {
    var l2 := AfterDeliver(l, r, p, env);
    if !Dropped(l.routers[r], p) {
      OtherRecord(l, r, p, env, s);
      NewRecord(l, r, p, env);
      AdjacenciesDiffer(l2, r, s, p.src);
      OthersGot(l, r, p, env, Adjacency(r, l2.routers[r].nbs[s]));
    }
  }

  lemma NewRecord(l: Link, r: Ip, p: Packet, env: Env)
    requires r in l.routers && !Dropped(l.routers[r], p)
    ensures var l2 := AfterDeliver(l, r, p, env);
            Knows(l2, r, p.src) && l2.routers[r].nbs[p.src] == Handle(l.routers[r], r, p, env).end.nb
  {
    PeerStays(l.routers[r], r, p, env);
  }

  lemma OthersGot(l: Link, r: Ip, p: Packet, env: Env, b: AdjId)
    requires r in l.routers && !Dropped(l.routers[r], p) && b != Adjacency(r, Handle(l.routers[r], r, p, env).end.nb)
    ensures GetOr(AfterDeliver(l, r, p, env).got, b, map[]) == GetOr(l.got, b, map[])
  {
  }

  lemma AdjacenciesDiffer(l: Link, r: Ip, s: Ip, n: Ip)
    requires Inv(l) && Knows(l, r, s) && Knows(l, r, n) && s != n
    ensures Adjacency(r, l.routers[r].nbs[s]) != Adjacency(r, l.routers[r].nbs[n])
  {
    RecordFacts(l, r, s);
    RecordFacts(l, r, n);
  }

  /** Every other step leaves the record, but for interest that is forgotten, or loses it. */
  lemma OtherSteps(l: Link, a: Action, r: Ip, s: Ip, t: Tree)
    requires Enabled(l, a) && !a.Deliver? && Knows(Next(l, a), r, s) && t in Got(Next(l, a), r, s)
    ensures SameRecord(l, Next(l, a), r, s, t, Forgets(a, r, t))
  {
  }

  lemma RecordStep(l: Link, a: Action, r: Ip, s: Ip, t: Tree)
    requires Inv(l) && Enabled(l, a) && Inv(Next(l, a)) && !HearsOf(l, a, r, s, t)
    requires Knows(Next(l, a), r, s) && t in Got(Next(l, a), r, s)
    ensures SameRecord(l, Next(l, a), r, s, t, Forgets(a, r, t))
  {
    if !a.Deliver? {
      OtherSteps(l, a, r, s, t);
    } else if a.at == r && a.packet.src == s {
      OwnDeliver(l, r, a.packet, a.env, t);
    } else if a.at == r {
      OtherNeighbor(l, r, a.packet, a.env, s, t);
    } else {
      OtherRouter(l, a.at, a.packet, a.env, r, s, t);
    }
  }

  lemma SentGrows(l: Link, a: Action)
    requires a.at in l.routers
    ensures l.sent <= Next(l, a).sent
  {
  }

  lemma NotedStays(l: Link, l2: Link, r: Ip, s: Ip, t: Tree, p: Packet, kept: bool, forgets: bool)
    requires Knows(l2, r, s) && SameRecord(l, l2, r, s, t, forgets) && p.Reliable? && Noted(l, r, s, t, p, kept) && l.sent <= l2.sent
    ensures Noted(l2, r, s, t, p, kept && !forgets)
  {
  }

  // ----- Over runs -----

  /** A step after `j` and before `n` forgot what was said about the interest in the tree. */
  ghost predicate ForgottenSince(actions: seq<Action>, j: nat, n: nat, r: Ip, t: Tree)
    requires n <= |actions|
  {
    exists m :: j < m < n && Forgets(actions[m], r, t)
  }

  /** Step `j` was the last before `n` at which `r` heard from `s` about the tree. */
  ghost predicate LastHearing(ls: seq<Link>, actions: seq<Action>, n: nat, r: Ip, s: Ip, t: Tree, j: nat)
    requires n <= |actions| < |ls|
  {
    j < n && HearsOf(ls[j], actions[j], r, s, t) && forall m :: j < m < n ==> !HearsOf(ls[m], actions[m], r, s, t)
  }

  /** One step notes a message, or leaves what was noted. */
  lemma OneStep(l: Link, a: Action, l2: Link, r: Ip, s: Ip, t: Tree)
    requires Inv(l) && Enabled(l, a) && l2 == Next(l, a) && Inv(l2) && Knows(l2, r, s) && t in Got(l2, r, s)
    ensures if HearsOf(l, a, r, s, t) then Noted(l2, r, s, t, a.packet, true)
            else SameRecord(l, l2, r, s, t, Forgets(a, r, t)) && l.sent <= l2.sent
  {
    if HearsOf(l, a, r, s, t) {
      DeliveredEffect(l, r, a.packet, a.env);
      HeardNow(l, l2, r, a.packet);
    } else {
      RecordStep(l, a, r, s, t);
      SentGrows(l, a);
    }
  }

  lemma RunStep(ls: seq<Link>, actions: seq<Action>, n: nat, r: Ip, s: Ip, t: Tree)
    requires Run(ls, actions) && 0 < n <= |actions| && Knows(ls[n], r, s) && t in Got(ls[n], r, s)
    ensures if HearsOf(ls[n - 1], actions[n - 1], r, s, t) then Noted(ls[n], r, s, t, actions[n - 1].packet, true)
            else SameRecord(ls[n - 1], ls[n], r, s, t, Forgets(actions[n - 1], r, t)) && ls[n - 1].sent <= ls[n].sent
  {
    RunFacts(ls, actions, n);
    RunOk(ls, actions, n);
    OneStep(ls[n - 1], actions[n - 1], ls[n], r, s, t);
  }

  lemma NothingAtFirst(ls: seq<Link>, actions: seq<Action>, r: Ip, s: Ip)
    requires Run(ls, actions)
    ensures !Knows(ls[0], r, s)
  {
  }

  /** What is stored goes back to that step, unless it was forgotten since. */
  lemma {:induction false} LastHeard(ls: seq<Link>, actions: seq<Action>, n: nat, r: Ip, s: Ip, t: Tree) returns (j: nat)
    requires Run(ls, actions) && n <= |actions| && Knows(ls[n], r, s) && t in Got(ls[n], r, s)
    ensures LastHearing(ls, actions, n, r, s, t, j)
    ensures Noted(ls[n], r, s, t, actions[j].packet, !ForgottenSince(actions, j, n, r, t))
    decreases n
  {
    NothingAtFirst(ls, actions, r, s);
    RunStep(ls, actions, n, r, s, t);
    if HearsOf(ls[n - 1], actions[n - 1], r, s, t) {
      j := n - 1;
    } else {
      j := LastHeard(ls, actions, n - 1, r, s, t);
      HearingStays(ls, actions, n, r, s, t, j);
    }
  }

  lemma HearingStays(ls: seq<Link>, actions: seq<Action>, n: nat, r: Ip, s: Ip, t: Tree, j: nat)
    requires 0 < n <= |actions| < |ls| && LastHearing(ls, actions, n - 1, r, s, t, j) && !HearsOf(ls[n - 1], actions[n - 1], r, s, t)
    requires Noted(ls[n - 1], r, s, t, actions[j].packet, !ForgottenSince(actions, j, n - 1, r, t))
    requires Knows(ls[n], r, s) && SameRecord(ls[n - 1], ls[n], r, s, t, Forgets(actions[n - 1], r, t)) && ls[n - 1].sent <= ls[n].sent
    ensures LastHearing(ls, actions, n, r, s, t, j)
    ensures Noted(ls[n], r, s, t, actions[j].packet, !ForgottenSince(actions, j, n, r, t))
  {
    ForgottenStep(actions, j, n, r, t);
    NotedStays(ls[n - 1], ls[n], r, s, t, actions[j].packet, !ForgottenSince(actions, j, n - 1, r, t), Forgets(actions[n - 1], r, t));
  }

  lemma ForgottenStep(actions: seq<Action>, j: nat, n: nat, r: Ip, t: Tree)
    requires j < n - 1 < |actions|
    ensures ForgottenSince(actions, j, n, r, t) <==> ForgottenSince(actions, j, n - 1, r, t) || Forgets(actions[n - 1], r, t)
  {
  }

  // ----- What is read back -----

  lemma ReachedByRun(ls: seq<Link>, actions: seq<Action>, k: nat)
    requires Run(ls, actions) && k <= |actions|
    ensures Reachable(ls[k])
  {
    assert Run(ls[..k + 1], actions[..k]) && ls[k] == ls[..k + 1][|actions[..k]|];
  }

  /** The last message to `r` is the one that was noted last. */
  lemma LastIsNoted(l: Link, s: Ip, r: Ip, p: Packet, q: Packet, kept: bool)
    requires Reachable(l) && Matched(l, s, r) && LastTo(l, s, r, p) && !l.routers[s].iface.Of(p.msg.tree).Pending(r)
    requires q.Reliable? && Noted(l, r, s, p.msg.tree, q, kept)
    ensures q == p
  {
    ReachableOk(l);
    MatchedFacts(l, s, r);
    NothingIsLost(l, s, r, p);
    assert About(q, s, l.routers[s].iface.bootTime, p.msg.tree, r);
    assert SameStamp(p, q);
  }

  lemma LastIsThere(l: Link, s: Ip, r: Ip, p: Packet)
    requires Reachable(l) && Matched(l, s, r) && LastTo(l, s, r, p) && !l.routers[s].iface.Of(p.msg.tree).Pending(r)
    ensures p.msg.tree in Got(l, r, s)
  {
    NothingIsLost(l, s, r, p);
  }

  /** Between synchronised ends with nothing pending about a tree, the last message to `r` about it
      decides: the sender counts as interested exactly if it said Interest, took back that it is
      upstream, or said NoInterest and `r` forgot this after it last heard it; and as upstream exactly
      if it said so. */
  lemma InterestReadBack(ls: seq<Link>, actions: seq<Action>, k: nat, s: Ip, r: Ip, p: Packet) returns (j: nat)
    requires Run(ls, actions) && k <= |actions| && Matched(ls[k], s, r) && ls[k].routers[r].nbs[s].state == Synced
    requires LastTo(ls[k], s, r, p) && !ls[k].routers[s].iface.Of(p.msg.tree).Pending(r)
    ensures LastHearing(ls, actions, k, r, s, p.msg.tree, j) && actions[j].packet == p
    ensures var (interested, upstream) := ls[k].routers[r].nbs[s].TreeState(p.msg.tree);
            && (interested <==> match p.msg.kind
                                case Interest => true
                                case IamNoLongerUpstream => true
                                case NoInterest => ForgottenSince(actions, j, k, r, p.msg.tree)
                                case IamUpstream(_) => false)
            && upstream == match p.msg.kind case IamUpstream(m) => Some(m) case _ => None
  {
    ReachedByRun(ls, actions, k);
    LastIsThere(ls[k], s, r, p);
    StoredIsLastSaid(ls[k], s, r, p);
    j := LastHeard(ls, actions, k, r, s, p.msg.tree);
    LastIsNoted(ls[k], s, r, p, actions[j].packet, !ForgottenSince(actions, j, k, r, p.msg.tree));
  }

  /** And if nothing was said to `r` about the tree since the snapshot, silence is interest: the sender
      counts as interested exactly unless the snapshot has it as upstream. */
  lemma SilenceIsInterest(l: Link, s: Ip, r: Ip, t: Tree)
    requires Reachable(l) && Matched(l, s, r) && l.routers[r].nbs[s].state == Synced
    requires forall q :: q in l.sent && About(q, s, l.routers[s].iface.bootTime, t, r) ==>
               q.msg.stamp.sn <= l.routers[s].nbs[r].mySn
    ensures Adjacency(s, l.routers[s].nbs[r]) in l.snaps
    ensures var listed := Lookup(l.snaps[Adjacency(s, l.routers[s].nbs[r])].listing, t);
            l.routers[r].nbs[s].TreeState(t) == (listed.None?, listed)
  {
    StoredIsSnapshot(l, s, r, t);
  }

  /** Who is being synchronised counts for nothing, whatever is stored of it. */
  lemma UnsyncedCountsForNothing(nb: Nb, t: Tree)
    requires nb.state != Synced
    ensures !nb.TreeState(t).0 && nb.TreeState(t).1.None?
  {
  }
}
