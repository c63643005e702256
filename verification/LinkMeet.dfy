/** Wherever two routers of a link stand, they can still come together: some continuation in which
    only they take part makes both ends synchronised. */
module LinkMeet {
  import opened Types
  import opened ReliableSpec
  import opened NeighborSpec
  import opened Link
  import opened LinkInv
  import opened LinkNb
  import opened LinkDeliver
  import opened LinkTheorems
  import opened LockStep

  /** A step of one of the two that concerns the other: it gives it up, greets everybody, hears its
      Hello or Sync, or sends a Sync again. */
  predicate Theirs(a: Action, x: Ip, y: Ip) {
    match a
    case SyncTimer(at, peer) => (at == x && peer == y) || (at == y && peer == x)
    case LoseNeighbor(at, peer) => (at == x && peer == y) || (at == y && peer == x)
    case SayHello(at, _) => at == x || at == y
    case Deliver(at, p, _) => (p.Sync? || p.Hello?) && ((at == x && p.src == y) || (at == y && p.src == x))
    case _ => false
  }

  ghost predicate Way(l: Link, l2: Link, x: Ip, y: Ip, ls: seq<Link>, actions: seq<Action>) {
    && Continues(ls, actions) && ls[0] == l && ls[|actions|] == l2
    && forall k :: 0 <= k < |actions| ==> Theirs(actions[k], x, y)
  }

  lemma OneMore(l: Link, a: Action, l2: Link, x: Ip, y: Ip, ls: seq<Link>, actions: seq<Action>)
    requires Enabled(l, a) && Theirs(a, x, y) && Way(Next(l, a), l2, x, y, ls, actions)
    ensures Way(l, l2, x, y, [l] + ls, [a] + actions)
  {
    var ls2, actions2 := [l] + ls, [a] + actions;
    forall k | 0 <= k < |actions2|
      ensures Enabled(ls2[k], actions2[k]) && ls2[k + 1] == Next(ls2[k], actions2[k]) && Theirs(actions2[k], x, y)
    {
      if k > 0 {
        assert ls2[k] == ls[k - 1] && actions2[k] == actions[k - 1];
      }
    }
  }

  lemma LeadsIsWay(l: Link, l2: Link, x: Ip, y: Ip, ls: seq<Link>, actions: seq<Action>)
    requires Leads(l, l2, x, y, ls, actions)
    ensures Way(l, l2, x, y, ls, actions)
  {
    forall k | 0 <= k < |actions| ensures Theirs(actions[k], x, y) {
      assert actions[k] in actions;
    }
  }

  // ----- The steps -----

  ghost predicate Two(l: Link, x: Ip, y: Ip) {
    Reachable(l) && x in l.routers && y in l.routers && x != y
  }

  lemma Step(l: Link, a: Action, x: Ip, y: Ip)
    requires Two(l, x, y) && Enabled(l, a)
    ensures Two(Next(l, a), x, y)
  {
    StepIsReachable(l, a);
  }

  /** One router gives the other up. */
  lemma GivingUp(l: Link, x: Ip, y: Ip)
    requires Two(l, x, y)
    ensures Enabled(l, LoseNeighbor(x, y)) && !Knows(Next(l, LoseNeighbor(x, y)), x, y)
    ensures var l2 := Next(l, LoseNeighbor(x, y));
            && l2.routers[x].iface.Now() == l.routers[x].iface.Now() && l2.routers[y] == l.routers[y] && l2.sent == l.sent
  {
  }

  function HelloOf(l: Link, x: Ip): Packet
    requires x in l.routers
  {
    Hello(x, l.routers[x].iface.bootTime, 0)
  }

  lemma Greeting(l: Link, x: Ip, y: Ip)
    requires Two(l, x, y)
    ensures Enabled(l, SayHello(x, 0)) && HelloOf(l, x) in Next(l, SayHello(x, 0)).sent
    ensures Next(l, SayHello(x, 0)).routers == l.routers
  {
    ReachableOk(l);
    assert RouterOk(l, x);
    forall m | R.InFlight(l.routers[x].iface, m) ensures 0 < m.stamp.sn {
      var t :| t in l.routers[x].iface.buffer && R.Carries(l.routers[x].iface.buffer[t], m);
      assert R.TreeInv(l.routers[x].iface, t, l.routers[x].iface.buffer[t]);
    }
  }

  /** A router that hears the Hello of a stranger takes a snapshot and starts driving. */
  ghost predicate Drives(l: Link, y: Ip, x: Ip) {
    && Knows(l, y, x)
    && var nb := l.routers[y].nbs[x];
       && nb.state == Slave && nb.syncSn == 0 && nb.neighborSn == 0
       && Stamp(nb.myBootTime, nb.mySn) == l.routers[y].iface.Now()
       && End(y, x, l.routers[y].iface, nb).SyncPacket(0, true) in l.sent
  }

  lemma Hearing(l: Link, y: Ip, x: Ip, env: Env)
    requires Two(l, y, x) && !Knows(l, y, x) && EnvOk(l.routers[y], env) && HelloOf(l, x) in l.sent
    ensures Enabled(l, Deliver(y, HelloOf(l, x), env))
    ensures var l2 := Next(l, Deliver(y, HelloOf(l, x), env));
            && Drives(l2, y, x) && l2.routers[y].nbs[x].timeOfBoot == l.routers[x].iface.bootTime
            && l2.routers[x] == l.routers[x] && l.sent <= l2.sent
            && l2.routers[y].iface.Now() == l.routers[y].iface.Tick(env.clock).Now()
  {
  }

  predicate HasRoom(i: Iface) {
    i.sequencer + 1 != MAX_SEQUENCE_NUMBER
  }

  function FirstSync(l: Link, y: Ip, x: Ip): Packet
    requires Knows(l, y, x)
  {
    End(y, x, l.routers[y].iface, l.routers[y].nbs[x]).SyncPacket(0, true)
  }

  /** What the driven end answers. */
  predicate Answers(q: Packet, x: Ip, y: Ip, nb: Nb) {
    Own(q, x, y, nb) && q.neighborBootTime == nb.timeOfBoot && q.neighborSn == nb.neighborSn && q.syncSn == 0 && !q.master
  }

  /** A router that gets the first Sync of a stranger takes a snapshot too, adopts the other one's and
      answers. */
  ghost predicate Driven(l: Link, x: Ip, y: Ip) {
    && Knows(l, x, y)
    && var nb := l.routers[x].nbs[y];
       && nb.state == Master && nb.syncSn == 1
       && Stamp(nb.myBootTime, nb.mySn) == l.routers[x].iface.Now()
       && exists q :: q in l.sent && Answers(q, x, y, nb)
  }

  lemma Answering(l: Link, x: Ip, y: Ip, env: Env)
    requires Two(l, x, y) && !Knows(l, x, y) && EnvOk(l.routers[x], env) && HasRoom(l.routers[x].iface)
    requires Drives(l, y, x) && l.routers[y].nbs[x].timeOfBoot == l.routers[x].iface.bootTime
    ensures Enabled(l, Deliver(x, FirstSync(l, y, x), env))
    ensures var l2 := Next(l, Deliver(x, FirstSync(l, y, x), env));
            && Driven(l2, x, y) && Drives(l2, y, x) && l2.routers[y] == l.routers[y]
            && l2.routers[x].iface.bootTime == l.routers[x].iface.bootTime
            && Adopted(y, l2.routers[x].nbs[y]) == Adjacency(y, l.routers[y].nbs[x])
  {
    var p := FirstSync(l, y, x);
    var r := l.routers[x];
    var e := End(x, y, r.iface.(neighbors := r.iface.neighbors + {y}), NewNb(p.bootTime, r.iface.bootTime));
    AnswerShape(e, p, env);
    var o := Handle(r, x, p, env);
    assert o.out[0] in ToSet(o.out);
    assert Answers(o.out[0], x, y, o.end.nb);
  }

  lemma AnswerShape(e: End, p: Packet, env: Env)
    requires p.Sync? && p.syncSn == 0 && p.master && env.clock > e.iface.bootTime && HasRoom(e.iface)
    requires e.nb == NewNb(p.bootTime, e.iface.bootTime) && p.neighborBootTime == e.iface.bootTime
    requires p.src == e.peer
    ensures var o := e.ReceiveSync(p, env);
            && o.end.me == e.me && o.end.peer == e.peer && o.end.iface.bootTime == e.iface.bootTime
            && o.end.nb.state == Master && o.end.nb.syncSn == 1
            && Stamp(o.end.nb.myBootTime, o.end.nb.mySn) == o.end.iface.Now()
            && o.end.nb.timeOfBoot == p.bootTime && o.end.nb.neighborSn == p.mySn
            && |o.out| == 1 && Answers(o.out[0], e.me, e.peer, o.end.nb)
  {
    MeetShape(e, env);
    var f := e.(nb := e.nb.(state := Master)).StartSnapshot(env);
    var g := f.(nb := f.nb.Forget());
    InstallEffect(g.Adopt(p.mySn).nb, p.trees, Tree(0, 0));
  }

  /** The driving end takes the answer for what it is: both stand for the same pair of snapshots. */
  lemma Closing(l: Link, y: Ip, x: Ip, q: Packet, env: Env)
    requires Two(l, y, x) && EnvOk(l.routers[y], env) && Drives(l, y, x) && Knows(l, x, y)
    requires q in l.sent && Answers(q, x, y, l.routers[x].nbs[y])
    requires Adopted(y, l.routers[x].nbs[y]) == Adjacency(y, l.routers[y].nbs[x])
    requires l.routers[y].nbs[x].timeOfBoot == l.routers[x].iface.bootTime == l.routers[x].nbs[y].myBootTime
    ensures Enabled(l, Deliver(y, q, env)) && Matched(Next(l, Deliver(y, q, env)), x, y)
  {
    ClosingShape(End(y, x, l.routers[y].iface, l.routers[y].nbs[x]), q, env);
  }

  lemma ClosingShape(e: End, q: Packet, env: Env)
    requires q.Sync? && q.syncSn == 0 && !q.master && e.nb.state == Slave && e.nb.syncSn == 0 && e.nb.neighborSn == 0
    requires q.bootTime == e.nb.timeOfBoot && q.neighborBootTime == e.nb.myBootTime && q.neighborSn == e.nb.mySn
    ensures var o := e.ReceiveSync(q, env);
            && o.end.me == e.me && o.end.peer == e.peer && o.end.iface == e.iface
            && o.end.nb.timeOfBoot == e.nb.timeOfBoot && o.end.nb.neighborSn == q.mySn
            && o.end.nb.myBootTime == e.nb.myBootTime && o.end.nb.mySn == e.nb.mySn
  {
    var f := e.Adopt(q.mySn);
    InstallEffect(f.nb.(syncSn := f.nb.syncSn + 1), q.trees, Tree(0, 0));
  }

  // ----- All of it -----

  /** From two strangers, one of which has said hello and has a number left. */
  lemma StrangersMeet(l: Link, x: Ip, y: Ip) returns (ls: seq<Link>, actions: seq<Action>, l2: Link)
    requires Two(l, x, y) && !Knows(l, x, y) && !Knows(l, y, x) && HelloOf(l, x) in l.sent && HasRoom(l.routers[x].iface)
    ensures Way(l, l2, x, y, ls, actions) && BothSynced(l2, x, y)
  {
    var hear := Deliver(y, HelloOf(l, x), SomeEnv(l.routers[y]));
    Hearing(l, y, x, SomeEnv(l.routers[y]));
    Step(l, hear, x, y);
    ls, actions, l2 := DriverMeets(Next(l, hear), x, y);
    OneMore(l, hear, l2, x, y, ls, actions);
    ls, actions := [l] + ls, [hear] + actions;
  }

  lemma DriverMeets(l: Link, x: Ip, y: Ip) returns (ls: seq<Link>, actions: seq<Action>, l2: Link)
    requires Two(l, x, y) && !Knows(l, x, y) && Drives(l, y, x) && HasRoom(l.routers[x].iface)
    requires l.routers[y].nbs[x].timeOfBoot == l.routers[x].iface.bootTime
    ensures Way(l, l2, x, y, ls, actions) && BothSynced(l2, x, y)
  {
    var answer := Deliver(x, FirstSync(l, y, x), SomeEnv(l.routers[x]));
    Answering(l, x, y, SomeEnv(l.routers[x]));
    Step(l, answer, x, y);
    ls, actions, l2 := DrivenMeets(Next(l, answer), x, y);
    OneMore(l, answer, l2, x, y, ls, actions);
    ls, actions := [l] + ls, [answer] + actions;
  }

  lemma DrivenMeets(l: Link, x: Ip, y: Ip) returns (ls: seq<Link>, actions: seq<Action>, l2: Link)
    requires Two(l, x, y) && Driven(l, x, y) && Drives(l, y, x)
    requires Adopted(y, l.routers[x].nbs[y]) == Adjacency(y, l.routers[y].nbs[x])
    requires l.routers[y].nbs[x].timeOfBoot == l.routers[x].iface.bootTime
    ensures Way(l, l2, x, y, ls, actions) && BothSynced(l2, x, y)
  {
    var q :| q in l.sent && Answers(q, x, y, l.routers[x].nbs[y]);
    var close := Deliver(y, q, SomeEnv(l.routers[y]));
    Closing(l, y, x, q, SomeEnv(l.routers[y]));
    Step(l, close, x, y);
    ls, actions, l2 := CanFinish(Next(l, close), x, y);
    LeadsIsWay(Next(l, close), l2, x, y, ls, actions);
    OneMore(l, close, l2, x, y, ls, actions);
    ls, actions := [l] + ls, [close] + actions;
  }

  /** They give each other up, and one that has a number left says hello. */
  lemma StartOver(l: Link, x: Ip, y: Ip) returns (ls: seq<Link>, actions: seq<Action>, l2: Link)
    requires Two(l, x, y) && HasRoom(l.routers[x].iface)
    ensures Way(l, l2, x, y, ls, actions) && BothSynced(l2, x, y)
  {
    var l1 := Next(l, LoseNeighbor(x, y));
    GivingUp(l, x, y);
    Step(l, LoseNeighbor(x, y), x, y);
    var l3 := Next(l1, LoseNeighbor(y, x));
    GivingUp(l1, y, x);
    Step(l1, LoseNeighbor(y, x), x, y);
    ls, actions, l2 := HelloMeets(l3, x, y);
    OneMore(l1, LoseNeighbor(y, x), l2, x, y, ls, actions);
    ls, actions := [l1] + ls, [LoseNeighbor(y, x)] + actions;
    OneMore(l, LoseNeighbor(x, y), l2, x, y, ls, actions);
    ls, actions := [l] + ls, [LoseNeighbor(x, y)] + actions;
  }

  lemma HelloMeets(l: Link, x: Ip, y: Ip) returns (ls: seq<Link>, actions: seq<Action>, l2: Link)
    requires Two(l, x, y) && !Knows(l, x, y) && !Knows(l, y, x) && HasRoom(l.routers[x].iface)
    ensures Way(l, l2, x, y, ls, actions) && BothSynced(l2, x, y)
  {
    Greeting(l, x, y);
    Step(l, SayHello(x, 0), x, y);
    ls, actions, l2 := StrangersMeet(Next(l, SayHello(x, 0)), x, y);
    OneMore(l, SayHello(x, 0), l2, x, y, ls, actions);
    ls, actions := [l] + ls, [SayHello(x, 0)] + actions;
  }

  /** A router that runs out of numbers starts over with the next snapshot it takes. */
  lemma MakeRoom(l: Link, x: Ip, y: Ip) returns (ls: seq<Link>, actions: seq<Action>, l2: Link)
    requires Two(l, x, y) && !Knows(l, x, y) && !HasRoom(l.routers[x].iface)
    ensures Way(l, l2, x, y, ls, actions) && BothSynced(l2, x, y)
  {
    Greeting(l, y, x);
    Step(l, SayHello(y, 0), x, y);
    var m := Next(l, SayHello(y, 0));
    var hear := Deliver(x, HelloOf(m, y), SomeEnv(m.routers[x]));
    Hearing(m, x, y, SomeEnv(m.routers[x]));
    Step(m, hear, x, y);
    ls, actions, l2 := StartOver(Next(m, hear), x, y);
    OneMore(m, hear, l2, x, y, ls, actions);
    ls, actions := [m] + ls, [hear] + actions;
    OneMore(l, SayHello(y, 0), l2, x, y, ls, actions);
    ls, actions := [l] + ls, [SayHello(y, 0)] + actions;
  }

  /** From any state that any run reaches, whatever any two routers of the link then hold of each
      other and whatever is on its way, some continuation in which only these two take part brings
      both ends to `Synced`, on each other's snapshot. */
  lemma CanMeet(l: Link, x: Ip, y: Ip) returns (ls: seq<Link>, actions: seq<Action>, l2: Link)
    requires Reachable(l) && x in l.routers && y in l.routers && x != y
    ensures Way(l, l2, x, y, ls, actions) && BothSynced(l2, x, y)
  {
    if HasRoom(l.routers[x].iface) {
      ls, actions, l2 := StartOver(l, x, y);
    } else {
      GivingUp(l, x, y);
      Step(l, LoseNeighbor(x, y), x, y);
      ls, actions, l2 := MakeRoom(Next(l, LoseNeighbor(x, y)), x, y);
      OneMore(l, LoseNeighbor(x, y), l2, x, y, ls, actions);
      ls, actions := [l] + ls, [LoseNeighbor(x, y)] + actions;
    }
  }
}
