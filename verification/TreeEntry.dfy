/** The state of one tree at a router that is not directly connected to the source, and what every
    handler keeps of it. */
module TreeEntry {
  import opened Types
  import opened Metrics
  import opened TreeSpec

  /** What unicast routing says about the source. */
  datatype Route = Route(rpc: Metric, direct: bool, inbound: Option<Vif>)

  // ----- Interfaces that are created -----

  function NewNonRoot(l: Links, i: Vif, rpc: Metric, best: Option<Best>, interested: bool, members: bool, cur: TreeState): TreeIf {
    Elect(NonRoot(best, cur, members, interested, true, false, rpc), l.Address(i))
  }

  /** What a new non-root interface sends, by the event its creation stands for. */
  function NonRootGreets(i: Vif, connected: bool, rpc: Metric, best: Option<Best>, wasRoot: bool,
                         prev: TreeState, cur: TreeState): seq<Out> {
    if !wasRoot && !prev.Active? && cur.Active? && !connected then [IamUpstream(i, rpc)]
    else if wasRoot && cur.Active? && !connected then [IamUpstream(i, rpc)]
    else if prev.Active? && cur.Unsure? && best.None? then [IamNoLongerUpstream(i)]
    else if prev.Active? && cur.Inactive? then [IamNoLongerUpstream(i)]
    else if !wasRoot && prev.Active? && cur.Unsure? && best.Some? then
      [IamNoLongerUpstream(i), NoInterest(i, best.value.claim.ip)]
    else if wasRoot && prev.Active? && cur.Unsure? && best.Some? then [NoInterest(i, best.value.claim.ip)]
    else if prev.Inactive? && cur.Unsure? && best.Some? then [NoInterest(i, best.value.claim.ip)]
    else []
  }

  /** What a new root interface sends, while the router is in the tree or not as `inTree` says. */
  function RootGreets(i: Vif, best: Option<Best>, wasNonRoot: bool, prev: TreeState, cur: TreeState, inTree: bool): seq<Out>
    requires wasNonRoot && !prev.Inactive? && cur.Active? ==> best.Some?
  {
    if wasNonRoot && prev.Active? && cur.Active? then [IamNoLongerUpstream(i), Asked(i, best.value.claim.ip, inTree)]
    else if wasNonRoot && prev.Unsure? && cur.Active? then [Asked(i, best.value.claim.ip, inTree)]
    else if wasNonRoot && prev.Active? && cur.Unsure? && best.None? then [IamNoLongerUpstream(i)]
    else if wasNonRoot && prev.Active? && cur.Unsure? && best.Some? then
      [IamNoLongerUpstream(i), Asked(i, best.value.claim.ip, inTree)]
    else if wasNonRoot && prev.Unsure? && cur.Unsure? && best.Some? then [Asked(i, best.value.claim.ip, inTree)]
    else if !wasNonRoot && best.Some? then [Asked(i, best.value.claim.ip, inTree)]
    else []
  }

  // ----- The state of the tree -----

  /** The neighbour on the root interface is nearer to the source than this router. */
  predicate Nearer(best: Option<Best>, rpc: Metric) {
    best.Some? && !rpc.IsBetterThan(best.value.claim.metric) && rpc != best.value.claim.metric
  }

  ghost predicate SomebodyUpstream(upstream: map<Vif, Option<Best>>) {
    exists i :: i in upstream && upstream[i].Some?
  }

  ghost function Classify(inbound: Option<Vif>, any: bool, upstream: map<Vif, Option<Best>>, rpc: Metric): TreeState {
    if inbound.Some? && any && Nearer(GetOr(upstream, inbound.value, None), rpc) then Active
    else if any && SomebodyUpstream(upstream) then Unsure
    else Inactive
  }

  /** The state that `network_update` gives the interfaces it creates, before it looks at the tree. */
  function Provisional(state: TreeState, best: Option<Best>, rpc: Metric): TreeState {
    if state.Active? && best.None? then Unsure
    else if state.Active? && (rpc.IsBetterThan(best.value.claim.metric) || rpc == best.value.claim.metric) then Unsure
    else if state.Unsure? && best.Some? && !rpc.IsBetterThan(best.value.claim.metric) && rpc != best.value.claim.metric then Active
    else state
  }

  // ----- The entry -----

  datatype Entry = Entry(links: Links, state: TreeState,
                         interest: map<Vif, bool>, upstream: map<Vif, Option<Best>>,
                         rpc: Metric, inbound: Option<Vif>,
                         ifs: map<Vif, TreeIf>, order: seq<Vif>,
                         was: bool, log: seq<Out>) {

    /** The interfaces in order, with the root exactly at the inbound interface. */
    ghost predicate Shape() {
      && Distinct(order) && (forall i :: i in order <==> i in ifs)
      && (inbound.Some? ==> inbound.value in ifs)
      && (forall i :: i in ifs ==> (ifs[i].Root? <==> inbound == Some(i)))
    }

    /** An interface agrees with what is cached for it, its assert state is that of its own view of
        the tree, and its neighbours heard what a snapshot would tell them. */
    ghost predicate IfOk(i: Vif)
      requires i in ifs
    {
      var x := ifs[i];
      && x.best == GetOr(upstream, i, None)
      && Announced(log, i) == Sync(x, links.Connected(i))
      && (x.NonRoot? ==>
            && x.interested == GetOr(interest, i, false)
            && x.winner == Wins(x.cur, x.best, AssertMetric(x.rpc, links.Address(i)))
            && (x.winner ==> !x.onHold))
    }

    ghost predicate Consistent() {
      && Shape() && SilentWhereAsking(log)
      && (forall i :: i in ifs ==> IfOk(i))
      && (forall i :: i !in ifs ==> Announced(log, i) == None)
    }

    /** Every interface knows the tree's state, but one on the link of the source need not. */
    ghost predicate Known() {
      forall i :: i in ifs && !links.Connected(i) ==> ifs[i].cur == state
    }

    /** Interfaces created in the middle of a handler may know the state that is found at its end. */
    ghost predicate NearlyKnown() {
      forall i :: i in ifs && !links.Connected(i) ==> ifs[i].cur == state || ifs[i].cur == Classified()
    }

    /** Every interface knows the router's route metric. */
    ghost predicate Priced() {
      forall i :: i in ifs && ifs[i].NonRoot? ==> ifs[i].rpc == rpc
    }

    ghost predicate InTree() {
      links.InTree(ifs)
    }

    ghost function Classified(): TreeState {
      Classify(inbound, ifs != map[], upstream, rpc)
    }

    /** Everything but the tree's own state, which is checked last. */
    ghost predicate Steady() {
      Consistent() && Known() && Priced() && was == InTree()
    }

    ghost predicate NearlySteady() {
      Consistent() && NearlyKnown() && Priced() && was == InTree()
    }

    /** What holds between any two handlers. An Inactive tree is about to be removed. */
    ghost predicate Valid() {
      Steady() && (state.Inactive? || state == Classified())
    }

    /** The best upstream neighbour: whom the router tells whether it is interested. */
    function Upstream(): Option<(Vif, Ip)> {
      if inbound.Some? && inbound.value in ifs && ifs[inbound.value].best.Some? then
        Some((inbound.value, ifs[inbound.value].best.value.claim.ip))
      else None
    }

    function GetSig(): Sig {
      Sig(was, if Upstream().Some? then LastInterest(log, Upstream().value.0, Upstream().value.1) else None)
    }

    /** The best upstream neighbour was last told what is true. */
    predicate Signalled() {
      Upstream().Some? ==> GetSig().last == Some(was)
    }

    ghost function AsWalk(): Walk {
      Walk(ifs, GetSig())
    }
  }

  /** In a live tree the state chosen before the interfaces are swapped is the one that is found
      afterwards; in an Inactive one exactly when it stays Inactive. */
  lemma ProvisionalIsFinal(e: Entry, inbound: Option<Vif>, rpc: Metric)
    requires e.state.Inactive? || e.state == e.Classified()
    ensures var next := Classify(inbound, e.ifs != map[] || inbound.Some?, e.upstream, rpc);
            var best := if inbound.Some? then GetOr(e.upstream, inbound.value, None) else None;
            Provisional(e.state, best, rpc) == next <==> !e.state.Inactive? || next.Inactive?
  {
  }

  /** What the states mean. A tree is found Active exactly if the best upstream neighbour on its root
      link is nearer, by preference and only then by cost; short of that it is found Inactive exactly
      if on no link any neighbour is upstream. */
  lemma StatesMean(e: Entry)
    requires e.Valid()
    ensures e.Classified().Active? <==>
              && e.inbound.Some? && e.ifs[e.inbound.value].best.Some?
              && var m := e.ifs[e.inbound.value].best.value.claim.metric;
                 m.preference < e.rpc.preference || (m.preference == e.rpc.preference && m.cost < e.rpc.cost)
    ensures e.Classified().Inactive? <==> e.ifs == map[] || forall i :: i in e.upstream ==> e.upstream[i].None?
    ensures e.state.Inactive? || e.state == e.Classified()
  {
    if e.inbound.Some? {
      assert e.IfOk(e.inbound.value);
    }
  }

  /** Who forwards to a link, in the fields of its interface: in an Active tree the router that no
      upstream neighbour there beats, by preference, cost and address; in an Unsure one a router
      without upstream neighbour there; in an Inactive one everybody. */
  lemma AssertRule(e: Entry, i: Vif)
    requires e.Valid() && i in e.ifs && e.ifs[i].NonRoot? && !e.links.Connected(i)
    ensures e.ifs[i].winner <==>
              match e.state
              case Inactive => true
              case Unsure => e.ifs[i].best.None?
              case Active =>
                e.ifs[i].best.None? ||
                var c := e.ifs[i].best.value.claim;
                || e.rpc.preference < c.metric.preference
                || (e.rpc.preference == c.metric.preference && e.rpc.cost < c.metric.cost)
                || (e.rpc == c.metric && e.links.Address(i) > c.ip)
  {
    assert e.IfOk(i);
  }

  /** No link where data is wanted is cut off at once: while the state of the tree, the route metric and
      the best upstream neighbour change, an interface that forwards goes on forwarding, as winner or
      because it holds its forwarding state, until the timer of that runs out. */
  lemma ForwardingGoesOn(l: Links, i: Vif, x: TreeIf, ch: Change, best: Option<Best>)
    requires x.NonRoot? && (x.winner || x.onHold)
    ensures var y := l.Change(i, x, ch);
            y.NonRoot? && (if x.winner && !y.winner then y.onHold else y.winner || y.onHold) && (l.Forward(i, x) ==> l.Forward(i, y))
    ensures var y := Elect(x.(best := best), l.Address(i));
            y.NonRoot? && (if x.winner && !y.winner then y.onHold else y.winner || y.onHold) && (l.Forward(i, x) ==> l.Forward(i, y))
  {
  }

  /** Where the router is AssertWinner and somebody wants data, it is in the tree, and a best upstream
      neighbour that knows the truth was last told so. */
  lemma WantedIsAskedFor(e: Entry, i: Vif)
    requires e.Valid() && e.Signalled() && e.Upstream().Some?
    requires i in e.ifs && e.ifs[i].NonRoot? && !e.links.Connected(i) && (e.ifs[i].winner || e.ifs[i].onHold)
    requires e.ifs[i].members || GetOr(e.interest, i, false)
    ensures LastInterest(e.log, e.Upstream().value.0, e.Upstream().value.1) == Some(true)
  {
    assert e.IfOk(i);
    assert e.links.Forward(i, e.ifs[i]);
  }

  /** And where nobody does, or only where others forward, it was last told the contrary. */
  lemma UnwantedIsRefused(e: Entry)
    requires e.Valid() && e.Signalled() && e.Upstream().Some?
    requires forall i :: i in e.ifs && e.ifs[i].NonRoot? && !e.links.Connected(i) ==>
               (!e.ifs[i].members && !GetOr(e.interest, i, false)) || (!e.ifs[i].winner && !e.ifs[i].onHold)
    ensures LastInterest(e.log, e.Upstream().value.0, e.Upstream().value.1) == Some(false)
  {
    forall i | i in e.ifs ensures !e.links.Forward(i, e.ifs[i]) {
      assert e.IfOk(i);
    }
  }

  // ----- What a change of the tree's state does to all interfaces -----

  /** Every interface is told of the new state in turn; unless the tree is then to be removed, the
      router's interest is evaluated once more. */
  ghost function Transited(l: Links, w: Walk, order: seq<Vif>, asks: bool, from: TreeState, to: TreeState): Walk {
    if from == to then w
    else
      var r := Walked(l, w, order, |order|, asks, ToState(to));
      if to.Inactive? then r else Walk(r.ifs, r.sig.Evaluate(asks, l.InTree(r.ifs)))
  }

  /** An interface whose assert state is as it should be is so again after any change. */
  lemma ChangeKeepsElected(l: Links, i: Vif, x: TreeIf, ch: Change)
    requires x.NonRoot? && x.winner == Wins(x.cur, x.best, AssertMetric(x.rpc, l.Address(i))) && (x.winner ==> !x.onHold)
    ensures var y := l.Change(i, x, ch);
            && y.NonRoot? && y.winner == Wins(y.cur, y.best, AssertMetric(y.rpc, l.Address(i))) && (y.winner ==> !y.onHold)
            && y.best == x.best && y.interested == x.interested && y.members == x.members
            && (ch.ToState? ==> y.rpc == x.rpc) && (ch.ToRpc? ==> y.cur == x.cur && y.rpc == ch.rpc)
            && (ch.ToState? && !(ch.state.Active? && l.Connected(i)) ==> y.cur == ch.state)
  {
  }

  lemma TransitedKeepsTold(l: Links, w: Walk, order: seq<Vif>, asks: bool, from: TreeState, to: TreeState)
    requires forall n :: 0 <= n < |order| ==> order[n] in w.ifs
    ensures var r := Transited(l, w, order, asks, from, to);
            && (w.sig.was == l.InTree(w.ifs) ==> r.sig.was == l.InTree(r.ifs))
            && (asks && w.sig.last == Some(w.sig.was) ==> r.sig.last == Some(r.sig.was))
            && (l.InTree(w.ifs) ==> l.InTree(r.ifs))
  {
    WalkKeepsTold(l, w, order, |order|, asks, ToState(to));
  }

  /** `e2` is `e` after all interfaces were told of `ch`; it may also be in another state by then. */
  ghost predicate Follows(e: Entry, e2: Entry, ch: Change) {
    && e2 == e.(state := e2.state, rpc := e2.rpc, ifs := e2.ifs, was := e2.was, log := e2.log)
    && e2.ifs.Keys == e.ifs.Keys && SilentWhereAsking(e2.log)
    && (forall i :: i in e.ifs ==> e2.ifs[i] == e.links.Change(i, e.ifs[i], ch))
    && (forall i :: i in e.ifs ==> Announced(e2.log, i) == Sync(e2.ifs[i], e.links.Connected(i)))
    && (forall i :: i !in e.ifs ==> Announced(e2.log, i) == Announced(e.log, i))
  }

  lemma FollowsKeepsConsistent(e: Entry, e2: Entry, ch: Change)
    requires e.Consistent() && Follows(e, e2, ch)
    ensures e2.Consistent()
  {
    forall i | i in e.ifs ensures e2.IfOk(i) && (e2.ifs[i].Root? <==> e.ifs[i].Root?) {
      if e.ifs[i].NonRoot? {
        ChangeKeepsElected(e.links, i, e.ifs[i], ch);
      }
    }
  }

  /** `e2` is `e` after the tree's state was checked. */
  ghost predicate Checked(e: Entry, e2: Entry) {
    && e2.Consistent() && e2.state == e.Classified() == e2.Classified() && e2.Upstream() == e.Upstream()
    && (if e.state == e2.state then e2 == e else Follows(e, e2, ToState(e2.state)) && e2.rpc == e.rpc)
    && e2.AsWalk() == Transited(e.links, e.AsWalk(), e.order, e.Upstream().Some?, e.state, e2.state)
  }

  /** After the tree's state was checked every interface knows it. */
  lemma CheckedIsKnown(e: Entry, e2: Entry)
    requires e.Consistent() && e.NearlyKnown() && Checked(e, e2)
    ensures e2.Known() && SameButState(e, e2)
  {
    forall i | i in e2.ifs
      ensures !e.links.Connected(i) ==> e2.ifs[i].cur == e2.state
      ensures e2.ifs[i].members == e.ifs[i].members
      ensures e.ifs[i].NonRoot? ==> e2.ifs[i].NonRoot? && e2.ifs[i].rpc == e.ifs[i].rpc
    {
      assert e.IfOk(i);
      if e.ifs[i].NonRoot? {
        ChangeKeepsElected(e.links, i, e.ifs[i], ToState(e2.state));
      }
    }
  }

  ghost predicate SameButState(e: Entry, e2: Entry) {
    && e2.ifs.Keys == e.ifs.Keys
    && forall i :: i in e.ifs ==>
         e2.ifs[i].members == e.ifs[i].members
         && (e.ifs[i].NonRoot? ==> e2.ifs[i].NonRoot? && e2.ifs[i].rpc == e.ifs[i].rpc)
  }

  /** After the tree's state was checked everything is as it should be again. */
  lemma CheckedIsValid(e: Entry, e2: Entry)
    requires e.NearlySteady() && Checked(e, e2)
    ensures e2.Valid() && (e.Signalled() ==> e2.Signalled()) && SameButState(e, e2)
  {
    TransitedKeepsTold(e.links, e.AsWalk(), e.order, e.Upstream().Some?, e.state, e2.state);
    CheckedIsKnown(e, e2);
    CheckedIsPriced(e, e2);
  }

  lemma CheckedIsPriced(e: Entry, e2: Entry)
    requires e.Shape() && e2.Shape() && e.Priced() && SameButState(e, e2) && e2.rpc == e.rpc && e2.inbound == e.inbound
    ensures e2.Priced()
  {
  }

  /** `e2` differs from `e` in interface `i`, its caches, and what was sent. */
  ghost predicate OnlyAt(e: Entry, e2: Entry, i: Vif) {
    && i in e.ifs && i in e2.ifs
    && e2 == e.(interest := e2.interest, upstream := e2.upstream, ifs := e.ifs[i := e2.ifs[i]], was := e2.was, log := e2.log)
    && (forall k :: k != i ==> GetOr(e2.upstream, k, None) == GetOr(e.upstream, k, None))
    && (forall k :: k != i ==> GetOr(e2.interest, k, false) == GetOr(e.interest, k, false))
    && (forall k :: k != i ==> Announced(e2.log, k) == Announced(e.log, k))
    && (e2.ifs[i].Root? <==> e.ifs[i].Root?)
  }

  lemma OneInterfaceIsSteady(e: Entry, e2: Entry, i: Vif)
    requires e.Steady() && OnlyAt(e, e2, i)
    requires SilentWhereAsking(e2.log) && e2.IfOk(i) && e2.was == e2.InTree()
    requires e2.ifs[i].cur == e.ifs[i].cur && (e2.ifs[i].NonRoot? ==> e2.ifs[i].rpc == e.ifs[i].rpc)
    ensures e2.Steady()
  {
    forall k | k in e2.ifs ensures e2.IfOk(k) && (e2.ifs[k].Root? <==> e2.inbound == Some(k)) {
      if k != i {
        assert e.IfOk(k);
      }
    }
  }

  /** Sending what does not change what is announced keeps everything. */
  lemma OnlySentIsSteady(e: Entry, e2: Entry)
    requires e.Steady() && e2 == e.(log := e2.log)
    requires SilentWhereAsking(e2.log) && forall i :: Announced(e2.log, i) == Announced(e.log, i)
    ensures e2.Steady()
  {
    forall k | k in e2.ifs ensures e2.IfOk(k) {
      assert e.IfOk(k);
    }
  }

  lemma SameForwarding(e: Entry, e2: Entry, i: Vif)
    requires OnlyAt(e, e2, i) && e.links.Forward(i, e2.ifs[i]) == e.links.Forward(i, e.ifs[i])
    ensures e2.InTree() == e.InTree()
  {
    if e.InTree() {
      var k :| k in e.ifs && e.links.Forward(k, e.ifs[k]);
      assert k in e2.ifs && e2.links.Forward(k, e2.ifs[k]);
    }
    if e2.InTree() {
      var k :| k in e2.ifs && e2.links.Forward(k, e2.ifs[k]);
      assert k in e.ifs && e.links.Forward(k, e.ifs[k]);
    }
  }

  /** One interface changed, and if that changed whether it forwards the router's interest was
      evaluated: all is steady again, and the best upstream neighbour still knows the truth. */
  lemma ReevaluatedIsSteady(e: Entry, e2: Entry, i: Vif)
    requires e.Steady() && OnlyAt(e, e2, i) && e2.IfOk(i)
    requires e2.ifs[i].cur == e.ifs[i].cur && (e2.ifs[i].NonRoot? ==> e2.ifs[i].rpc == e.ifs[i].rpc)
    requires SilentWhereAsking(e2.log) && e2.Upstream() == e.Upstream()
    requires || e2.GetSig() == e.GetSig().Evaluate(e2.Upstream().Some?, e2.InTree())
             || (e2.GetSig() == e.GetSig() && e.links.Forward(i, e2.ifs[i]) == e.links.Forward(i, e.ifs[i]))
    ensures e2.Steady() && (e.Signalled() ==> e2.Signalled())
  {
    if e2.GetSig() == e.GetSig() && e.links.Forward(i, e2.ifs[i]) == e.links.Forward(i, e.ifs[i]) {
      SameForwarding(e, e2, i);
    }
    OneInterfaceIsSteady(e, e2, i);
  }

  /** A non-root interface heard of another best upstream neighbour and calculated the winner. */
  lemma ElectedIsSteady(e: Entry, e2: Entry, i: Vif)
    requires e.Steady() && OnlyAt(e, e2, i) && e.ifs[i].NonRoot?
    requires var x := e.ifs[i].(best := GetOr(e2.upstream, i, None));
             && e2.ifs[i] == Elect(x, e.links.Address(i)) && e2.interest == e.interest
             && e2.GetSig() == if e2.ifs[i].winner != x.winner then e.GetSig().Evaluate(e2.Upstream().Some?, e2.InTree()) else e.GetSig()
    requires SilentWhereAsking(e2.log) && Announced(e2.log, i) == Announced(e.log, i) && e2.Upstream() == e.Upstream()
    ensures e2.Steady() && (e.Signalled() ==> e2.Signalled())
  {
    assert e.IfOk(i);
    ReevaluatedIsSteady(e, e2, i);
  }

  /** The interest of the routers on a link changed, and so perhaps did the router's own. */
  lemma InterestIsSteady(e: Entry, e2: Entry, i: Vif)
    requires e.Steady() && OnlyAt(e, e2, i) && e2.upstream == e.upstream
    requires e2.ifs[i] == if e.ifs[i].Root? then e.ifs[i] else e.ifs[i].(interested := GetOr(e2.interest, i, false))
    requires e2.GetSig() == if e2.ifs[i] != e.ifs[i] then e.GetSig().Evaluate(e2.Upstream().Some?, e2.InTree()) else e.GetSig()
    requires SilentWhereAsking(e2.log) && Announced(e2.log, i) == Announced(e.log, i) && e2.Upstream() == e.Upstream()
    ensures e2.Steady() && (e.Signalled() ==> e2.Signalled())
  {
    assert e.IfOk(i);
    ReevaluatedIsSteady(e, e2, i);
  }

  // ----- Interfaces that come and go -----

  /** Whatever was not touched is as it was, and what was touched is consistent by itself. */
  lemma RebuiltIsConsistent(e: Entry, e2: Entry, touched: set<Vif>)
    requires e.Consistent() && e2.links == e.links && e2.Shape() && SilentWhereAsking(e2.log)
    requires forall k :: k in e2.ifs && k !in touched ==>
               && k in e.ifs && e2.ifs[k] == e.ifs[k] && Announced(e2.log, k) == Announced(e.log, k)
               && GetOr(e2.upstream, k, None) == GetOr(e.upstream, k, None)
               && GetOr(e2.interest, k, false) == GetOr(e.interest, k, false)
    requires forall k :: k in e2.ifs && k in touched ==> e2.IfOk(k)
    requires forall k :: k !in e2.ifs ==> Announced(e2.log, k) == None
    ensures e2.Consistent()
  {
    forall k | k in e2.ifs ensures e2.IfOk(k) {
      if k !in touched {
        assert e.IfOk(k);
      }
    }
  }

  function Without(order: seq<Vif>, i: Vif): seq<Vif> {
    if order == [] then []
    else if order[0] == i then Without(order[1..], i)
    else [order[0]] + Without(order[1..], i)
  }

  lemma {:induction false} WithoutKeepsOthers(order: seq<Vif>, i: Vif)
    requires Distinct(order)
    ensures Distinct(Without(order, i)) && forall k :: k in Without(order, i) <==> k in order && k != i
  {
    if order != [] {
      assert order == [order[0]] + order[1..];
      assert forall n :: 0 <= n < |order[1..]| ==> order[1..][n] == order[n + 1];
      WithoutKeepsOthers(order[1..], i);
      var rest := Without(order[1..], i);
      assert order[0] !in order[1..];
      if order[0] != i {
        PrependKeepsDistinct(order[0], rest);
      }
    }
  }

  lemma PrependKeepsDistinct(i: Vif, rest: seq<Vif>)
    requires Distinct(rest) && i !in rest
    ensures Distinct([i] + rest)
  {
  }

  function Removed(e: Entry, i: Vif): Entry {
    e.(inbound := if e.inbound == Some(i) then None else e.inbound,
       upstream := e.upstream - {i}, interest := e.interest - {i},
       ifs := e.ifs - {i}, order := Without(e.order, i), log := e.log + [Closed(i)])
  }

  lemma RemovedIsConsistent(e: Entry, i: Vif)
    requires e.Steady() && i in e.ifs
    ensures var r := Removed(e, i);
            && r.Consistent() && r.Known() && r.Priced() && r.was == e.was
            && (r.Upstream().Some? ==> r.GetSig() == e.GetSig() && e.Upstream().Some?)
  {
    SaidOne(e.log, Closed(i));
    WithoutKeepsOthers(e.order, i);
    RebuiltIsConsistent(e, Removed(e, i), {});
  }

  function Appended(order: seq<Vif>, i: Vif): seq<Vif> {
    if i in order then order else order + [i]
  }

  /** What is said on one link is news on that link only. */
  lemma {:induction false} SaidOnLink(log: seq<Out>, said: seq<Out>, i: Vif)
    requires forall o :: o in said ==> o.vif == i
    ensures forall k :: k != i ==> Announced(log + said, k) == Announced(log, k)
    ensures forall k, to :: k != i ==> LastInterest(log + said, k, to) == LastInterest(log, k, to)
    decreases |said|
  {
    if said == [] {
      assert log + said == log;
    } else {
      var n := |said| - 1;
      SaidOnLink(log, said[..n], i);
      SaidOne(log + said[..n], said[n]);
      assert log + said == log + said[..n] + [said[n]];
    }
  }

  lemma SaidAtMostTwo(log: seq<Out>, said: seq<Out>, i: Vif)
    requires |said| <= 2 && SilentWhereAsking(log)
    requires |said| >= 1 && Asks(said[0]) ==> Announced(log, said[0].vif) == None
    requires |said| == 2 && Asks(said[1]) ==> Heard(said[0], said[1].vif, Announced(log, said[1].vif)) == None
    ensures SilentWhereAsking(log + said)
    ensures Announced(log + said, i) ==
              if |said| == 0 then Announced(log, i)
              else if |said| == 1 then Heard(said[0], i, Announced(log, i))
              else Heard(said[1], i, Heard(said[0], i, Announced(log, i)))
  {
    if |said| == 1 {
      SaidOne(log, said[0]);
      assert said == [said[0]];
    } else if |said| == 2 {
      SaidOne(log, said[0]);
      SaidOne(log + [said[0]], said[1]);
      assert log + said == log + [said[0]] + [said[1]];
    } else {
      assert log + said == log;
    }
  }

  lemma GreetingReplaces(l: Links, i: Vif, rpc: Metric, best: Option<Best>, wasRoot: bool, prev: TreeState, cur: TreeState,
                         log: seq<Out>)
    requires SilentWhereAsking(log)
    requires Announced(log, i) ==
               if !wasRoot && prev.Active? && cur.Active? && !l.Connected(i) then Some(rpc) else None
    ensures var after := log + NonRootGreets(i, l.Connected(i), rpc, best, wasRoot, prev, cur);
            SilentWhereAsking(after) && Announced(after, i) == if cur.Active? && !l.Connected(i) then Some(rpc) else None
  {
    SaidAtMostTwo(log, NonRootGreets(i, l.Connected(i), rpc, best, wasRoot, prev, cur), i);
  }

  /** A fresh non-root interface starts out consistent, whatever role the link had before: what it
      sends brings its neighbours from what they held to what a snapshot would say. */
  lemma GreetingInforms(l: Links, i: Vif, rpc: Metric, best: Option<Best>, interested: bool, members: bool,
                        wasRoot: bool, prev: TreeState, cur: TreeState, log: seq<Out>)
    requires SilentWhereAsking(log)
    requires Announced(log, i) ==
               if !wasRoot && prev.Active? && cur.Active? && !l.Connected(i) then Some(rpc) else None
    ensures var x := NewNonRoot(l, i, rpc, best, interested, members, cur);
            var after := log + NonRootGreets(i, l.Connected(i), rpc, best, wasRoot, prev, cur);
            && SilentWhereAsking(after) && Announced(after, i) == Sync(x, l.Connected(i))
            && (forall k :: k != i ==> Announced(after, k) == Announced(log, k))
            && (forall k, to :: k != i ==> LastInterest(after, k, to) == LastInterest(log, k, to))
  {
    GreetingReplaces(l, i, rpc, best, wasRoot, prev, cur, log);
    SaidOnLink(log, NonRootGreets(i, l.Connected(i), rpc, best, wasRoot, prev, cur), i);
  }

  /** What a root interface may greet with: it takes back what was announced on its link, and tells
      its best upstream neighbour whether the router is interested. */
  function Greeting(i: Vif, retract: bool, asked: Option<Ip>, inTree: bool): seq<Out> {
    (if retract then [IamNoLongerUpstream(i)] else []) + (if asked.Some? then [Asked(i, asked.value, inTree)] else [])
  }

  lemma RootGreetsSo(i: Vif, best: Option<Best>, wasNonRoot: bool, prev: TreeState, cur: TreeState, inTree: bool)
    returns (retract: bool, asked: Option<Ip>)
    requires wasNonRoot && !prev.Inactive? && cur.Active? ==> best.Some?
    ensures RootGreets(i, best, wasNonRoot, prev, cur, inTree) == Greeting(i, retract, asked, inTree)
    ensures wasNonRoot && prev.Active? && !cur.Inactive? ==> retract
    ensures best.Some? && (!wasNonRoot || (!prev.Inactive? && !cur.Inactive?)) ==> asked == Some(best.value.claim.ip)
  {
    var said := RootGreets(i, best, wasNonRoot, prev, cur, inTree);
    retract := |said| > 0 && said[0].IamNoLongerUpstream?;
    asked := if best.Some? && |said| > 0 && Asks(said[|said| - 1]) then Some(best.value.claim.ip) else None;
  }

  lemma SuchGreetingInforms(i: Vif, retract: bool, asked: Option<Ip>, inTree: bool, log: seq<Out>)
    requires SilentWhereAsking(log) && (Announced(log, i).Some? ==> retract)
    ensures var after := log + Greeting(i, retract, asked, inTree);
            && SilentWhereAsking(after) && Announced(after, i) == None
            && (forall k :: k != i ==> Announced(after, k) == Announced(log, k))
            && (asked.Some? ==> LastInterest(after, i, asked.value) == Some(inTree))
  {
    var log1 := if retract then log + [IamNoLongerUpstream(i)] else log;
    SaidOne(log, IamNoLongerUpstream(i));
    if asked.Some? {
      SaidOne(log1, Asked(i, asked.value, inTree));
      assert log + Greeting(i, retract, asked, inTree) == log1 + [Asked(i, asked.value, inTree)];
    } else {
      assert log + Greeting(i, retract, asked, inTree) == log1;
    }
  }

  /** A fresh root interface takes back what was announced on its link, and tells its best upstream
      neighbour, if any, whether the router is interested. */
  lemma RootGreetingInforms(i: Vif, best: Option<Best>, wasNonRoot: bool, prev: TreeState, cur: TreeState, inTree: bool,
                            log: seq<Out>)
    requires wasNonRoot && !prev.Inactive? && cur.Active? ==> best.Some?
    requires SilentWhereAsking(log) && (Announced(log, i).Some? ==> wasNonRoot && prev.Active? && !cur.Inactive?)
    ensures var after := log + RootGreets(i, best, wasNonRoot, prev, cur, inTree);
            && SilentWhereAsking(after) && Announced(after, i) == None
            && (forall k :: k != i ==> Announced(after, k) == Announced(log, k))
            && (best.Some? && (!wasNonRoot || (!prev.Inactive? && !cur.Inactive?)) ==>
                  LastInterest(after, i, best.value.claim.ip) == Some(inTree))
  {
    var retract, asked := RootGreetsSo(i, best, wasNonRoot, prev, cur, inTree);
    SuchGreetingInforms(i, retract, asked, inTree, log);
  }

  function AddNonRoot(e: Entry, i: Vif, rpc: Metric, best: Option<Best>, interested: bool, wasRoot: bool,
                      prev: TreeState, cur: TreeState, members: bool): Entry {
    e.(ifs := e.ifs[i := NewNonRoot(e.links, i, rpc, best, interested, members, cur)], order := Appended(e.order, i),
       log := e.log + NonRootGreets(i, e.links.Connected(i), rpc, best, wasRoot, prev, cur))
  }

  function AddRoot(e: Entry, i: Vif, best: Option<Best>, wasNonRoot: bool, prev: TreeState, cur: TreeState,
                   members: bool, inTree: bool): Entry
    requires wasNonRoot && !prev.Inactive? && cur.Active? ==> best.Some?
  {
    e.(ifs := e.ifs[i := Root(best, cur, members)], order := Appended(e.order, i),
       log := e.log + RootGreets(i, best, wasNonRoot, prev, cur, inTree))
  }

  // ----- The route to the source moves to another interface -----

  function BestAt(e: Entry, i: Option<Vif>): Option<Best> {
    if i.Some? then GetOr(e.upstream, i.value, None) else None
  }

  /** Deleting a non-root interface cancels its hold timer; it stays in the map until it is replaced. */
  function Cleared(e: Entry, i: Option<Vif>): Entry {
    if i.Some? && i.value in e.ifs && e.ifs[i.value].NonRoot? then
      e.(ifs := e.ifs[i.value := e.ifs[i.value].(onHold := false)])
    else e
  }

  /** The old root interface is a non-root one by now, and the new root interface still is, too:
      this is what the new root interface sees when it tells its neighbour about the router. */
  function HalfSwapped(e: Entry, to: Option<Vif>, rpc: Metric, cur: TreeState, joined: set<Vif>): Entry {
    var d := Cleared(e, to);
    if e.inbound.Some? then
      AddNonRoot(d, e.inbound.value, rpc, BestAt(e, e.inbound), GetOr(e.interest, e.inbound.value, false), true,
                 e.state, cur, e.inbound.value in joined)
    else d
  }

  ghost function SwappedTo(e: Entry, to: Option<Vif>, rpc: Metric, cur: TreeState, joined: set<Vif>): Entry
    requires !e.state.Inactive? && cur.Active? ==> BestAt(e, to).Some?
  {
    var h := HalfSwapped(e, to, rpc, cur, joined);
    var m := if to.Some? then AddRoot(h, to.value, BestAt(e, to), true, e.state, cur, to.value in joined, h.InTree()) else h;
    m.(inbound := to, rpc := rpc)
  }

  lemma ProvisionalNeedsBest(state: TreeState, best: Option<Best>, rpc: Metric)
    ensures !state.Inactive? && Provisional(state, best, rpc).Active? ==> best.Some?
    ensures !state.Inactive? ==> !Provisional(state, best, rpc).Inactive?
  {
  }

  lemma ClearedFacts(e: Entry, to: Option<Vif>)
    ensures var d := Cleared(e, to);
            && d == e.(ifs := d.ifs) && d.ifs.Keys == e.ifs.Keys
            && (forall k :: k in e.ifs && Some(k) != to ==> d.ifs[k] == e.ifs[k])
  {
  }

  lemma AddNonRootFacts(e: Entry, i: Vif, rpc: Metric, best: Option<Best>, interested: bool, prev: TreeState, cur: TreeState,
                        members: bool)
    requires SilentWhereAsking(e.log) && Announced(e.log, i) == None
    ensures var m := AddNonRoot(e, i, rpc, best, interested, true, prev, cur, members);
            && m == e.(ifs := m.ifs, order := m.order, log := m.log)
            && m.ifs.Keys == e.ifs.Keys + {i} && m.order == Appended(e.order, i)
            && (forall k :: k in e.ifs && k != i ==> m.ifs[k] == e.ifs[k])
            && m.ifs[i] == NewNonRoot(e.links, i, rpc, best, interested, members, cur)
            && SilentWhereAsking(m.log) && Announced(m.log, i) == Sync(m.ifs[i], e.links.Connected(i))
            && (forall k: Vif :: k != i ==> Announced(m.log, k) == Announced(e.log, k))
  {
    GreetingInforms(e.links, i, rpc, best, interested, members, true, prev, cur, e.log);
  }

  /** What the old root interface becomes. */
  lemma HalfSwappedFacts(e: Entry, to: Option<Vif>, rpc: Metric, cur: TreeState, joined: set<Vif>)
    requires e.Consistent() && to != e.inbound
    ensures HalfOk(e, to, rpc, cur, HalfSwapped(e, to, rpc, cur, joined))
  {
    ClearedFacts(e, to);
    if e.inbound.Some? {
      var r := e.inbound.value;
      assert e.IfOk(r);
      AddNonRootFacts(Cleared(e, to), r, rpc, BestAt(e, e.inbound), GetOr(e.interest, r, false), e.state, cur, r in joined);
    }
  }

  ghost predicate HalfOk(e: Entry, to: Option<Vif>, rpc: Metric, cur: TreeState, h: Entry) {
    && h == e.(ifs := h.ifs, log := h.log) && h.ifs.Keys == e.ifs.Keys && SilentWhereAsking(h.log)
    && (forall k :: k in e.ifs && Some(k) != e.inbound && Some(k) != to ==> h.ifs[k] == e.ifs[k])
    && (forall k: Vif :: Some(k) != e.inbound ==> Announced(h.log, k) == Announced(e.log, k))
    && (e.inbound.Some? && e.inbound.value in h.ifs ==>
          var x := h.ifs[e.inbound.value];
          x.NonRoot? && x.cur == cur && x.rpc == rpc && h.IfOk(e.inbound.value))
  }

  lemma AppendKeepsDistinct(order: seq<Vif>, i: Vif)
    requires Distinct(order)
    ensures Distinct(Appended(order, i)) && forall k :: k in Appended(order, i) <==> k in order || k == i
  {
  }

  /** What the new root interface becomes. */
  lemma NewRootFacts(e: Entry, h: Entry, j: Vif, cur: TreeState, members: bool)
    requires e.Consistent() && e.Known() && e.inbound != Some(j) && SilentWhereAsking(h.log) && Announced(h.log, j) == Announced(e.log, j)
    requires !e.state.Inactive? ==> !cur.Inactive? && (cur.Active? ==> BestAt(e, Some(j)).Some?)
    requires h.upstream == e.upstream
    ensures var best := BestAt(e, Some(j));
            var m := AddRoot(h, j, best, true, e.state, cur, members, h.InTree());
            && SilentWhereAsking(m.log) && m.IfOk(j)
            && (forall k: Vif :: k != j ==> Announced(m.log, k) == Announced(h.log, k))
            && (best.Some? && !e.state.Inactive? ==> LastInterest(m.log, j, best.value.claim.ip) == Some(h.InTree()))
  {
    if j in e.ifs {
      assert e.IfOk(j);
    }
    RootGreetingInforms(j, BestAt(e, Some(j)), true, e.state, cur, h.InTree(), h.log);
  }

  lemma SwappedShape(e: Entry, to: Option<Vif>, rpc: Metric, cur: TreeState, joined: set<Vif>)
    requires e.Shape() && to != e.inbound && (!e.state.Inactive? && cur.Active? ==> BestAt(e, to).Some?)
    requires HalfOk(e, to, rpc, cur, HalfSwapped(e, to, rpc, cur, joined))
    ensures var m := SwappedTo(e, to, rpc, cur, joined);
            && m.Shape()
            && m.ifs.Keys == e.ifs.Keys + (if to.Some? then {to.value} else {})
            && (forall k :: k in m.ifs && Some(k) != e.inbound && Some(k) != to ==> k in e.ifs && m.ifs[k] == e.ifs[k])
            && (forall k :: k in m.ifs && (Some(k) == e.inbound || Some(k) == to) ==> m.ifs[k].cur == cur)
  {
    if to.Some? {
      AppendKeepsDistinct(e.order, to.value);
    }
  }

  predicate CurFits(e: Entry, to: Option<Vif>, cur: TreeState) {
    !e.state.Inactive? ==> !cur.Inactive? && (cur.Active? ==> BestAt(e, to).Some?)
  }

  /** After a swap every interface agrees with the caches, and the neighbours of all of them, old
      and new, know what a snapshot would tell them. */
  lemma SwappedIsConsistent(e: Entry, to: Option<Vif>, rpc: Metric, cur: TreeState, joined: set<Vif>)
    requires e.Valid() && to != e.inbound && CurFits(e, to, cur)
    ensures SwappedTo(e, to, rpc, cur, joined).Consistent()
  {
    var h, m := HalfSwapped(e, to, rpc, cur, joined), SwappedTo(e, to, rpc, cur, joined);
    HalfSwappedFacts(e, to, rpc, cur, joined);
    SwappedShape(e, to, rpc, cur, joined);
    if to.Some? {
      NewRootFacts(e, h, to.value, cur, to.value in joined);
      SwapRebuilt(e, h, m, to);
    } else {
      SwapRebuilt(e, h, m, to);
    }
  }

  lemma SwapRebuilt(e: Entry, h: Entry, m: Entry, to: Option<Vif>)
    requires e.Consistent() && to != e.inbound && m.Shape() && SilentWhereAsking(m.log)
    requires m == e.(inbound := m.inbound, rpc := m.rpc, ifs := m.ifs, order := m.order, log := m.log)
    requires m.ifs.Keys == e.ifs.Keys + (if to.Some? then {to.value} else {})
    requires forall k :: k in m.ifs && Some(k) != e.inbound && Some(k) != to ==> k in e.ifs && m.ifs[k] == e.ifs[k]
    requires forall k: Vif :: Some(k) != to ==> Announced(m.log, k) == Announced(h.log, k)
    requires forall k: Vif :: Some(k) != e.inbound ==> Announced(h.log, k) == Announced(e.log, k)
    requires to.Some? ==> m.IfOk(to.value)
    requires e.inbound.Some? ==>
               && e.inbound.value in h.ifs && m.ifs[e.inbound.value] == h.ifs[e.inbound.value] && h.IfOk(e.inbound.value)
               && h.upstream == e.upstream && h.interest == e.interest && h.links == e.links
    ensures m.Consistent()
  {
    var touched := (if e.inbound.Some? then {e.inbound.value} else {}) + (if to.Some? then {to.value} else {});
    forall k | k in m.ifs && k in touched ensures m.IfOk(k) {
      if Some(k) == e.inbound {
        assert h.IfOk(k);
      }
    }
    RebuiltIsConsistent(e, m, touched);
  }

  /** What the router believes, and what it told, right after a swap in a live tree. */
  lemma SwappedSig(e: Entry, to: Option<Vif>, rpc: Metric, cur: TreeState, joined: set<Vif>)
    requires e.Valid() && to != e.inbound && CurFits(e, to, cur) && !e.state.Inactive?
    requires SwappedTo(e, to, rpc, cur, joined).Upstream().Some?
    ensures SwappedTo(e, to, rpc, cur, joined).GetSig() == Sig(e.was, Some(HalfSwapped(e, to, rpc, cur, joined).InTree()))
  {
    var h := HalfSwapped(e, to, rpc, cur, joined);
    HalfSwappedFacts(e, to, rpc, cur, joined);
    NewRootFacts(e, h, to.value, cur, to.value in joined);
  }

  /** What the new root interface told is at least what is true right after the swap, and only what
      the old root interface does now can make it more than the router believed. */
  lemma SwappedInTree(e: Entry, to: Option<Vif>, rpc: Metric, cur: TreeState, joined: set<Vif>)
    requires e.Valid() && to != e.inbound && CurFits(e, to, cur)
    ensures var h, m := HalfSwapped(e, to, rpc, cur, joined), SwappedTo(e, to, rpc, cur, joined);
            && (m.InTree() ==> h.InTree())
            && (h.InTree() ==> e.was || m.InTree())
  {
    var h, m := HalfSwapped(e, to, rpc, cur, joined), SwappedTo(e, to, rpc, cur, joined);
    HalfSwappedFacts(e, to, rpc, cur, joined);
    if m.InTree() {
      var k :| k in m.ifs && m.links.Forward(k, m.ifs[k]);
      assert Some(k) != to;
      assert k in h.ifs && h.links.Forward(k, h.ifs[k]);
    }
    if h.InTree() && !m.InTree() {
      var k :| k in h.ifs && h.links.Forward(k, h.ifs[k]);
      SwapForwarder(e, h, m, to, k);
    }
  }

  lemma SwapForwarder(e: Entry, h: Entry, m: Entry, to: Option<Vif>, k: Vif)
    requires e.was == e.InTree() && k in h.ifs && k in e.ifs && h.links.Forward(k, h.ifs[k]) && !m.InTree()
    requires h.links == e.links == m.links && to != e.inbound
    requires Some(k) != to ==> k in m.ifs && m.ifs[k] == h.ifs[k]
    requires Some(k) == to ==> e.links.Forward(k, h.ifs[k]) ==> e.links.Forward(k, e.ifs[k])
    ensures e.was
  {
    if Some(k) == to {
      assert e.links.Forward(k, e.ifs[k]);
    }
  }

  // ----- What is told when the route moves -----

  /** The rest of `network_update`: the tree's state is checked, then every interface is told of the
      route metric, then the router's interest is evaluated. */
  ghost function Finished(l: Links, w: Walk, order: seq<Vif>, asks: bool, from: TreeState, to: TreeState, rpc: Metric): Walk {
    var t := Transited(l, w, order, asks, from, to);
    var n := Walked(l, t, order, |order|, asks, ToRpc(rpc));
    Walk(n.ifs, n.sig.Evaluate(asks, l.InTree(n.ifs)))
  }

  /** The change that interfaces are told of first. */
  function FirstChange(from: TreeState, to: TreeState, rpc: Metric): Change {
    if from != to then ToState(to) else ToRpc(rpc)
  }

  /** The first interface that changes its assert state begins to forward. */
  predicate ReturnsFirst(l: Links, ifs: map<Vif, TreeIf>, order: seq<Vif>, ch: Change)
    requires forall n :: 0 <= n < |order| ==> order[n] in ifs
  {
    var f := FirstFlip(l, ifs, order, |order|, ch);
    f.Some? && l.Forward(f.value, l.Change(f.value, ifs[f.value], ch))
  }

  lemma WhatWasTold(l: Links, w: Walk, order: seq<Vif>, from: TreeState, to: TreeState, rpc: Metric, v: bool)
    requires Distinct(order) && (forall n :: 0 <= n < |order| ==> order[n] in w.ifs) && !to.Inactive?
    requires w.sig.last == Some(v) && (l.InTree(w.ifs) ==> v) && (v ==> w.sig.was || l.InTree(w.ifs))
    ensures var r := Finished(l, w, order, true, from, to, rpc);
            r.sig.last == Some(r.sig.was) <==>
              !(w.sig.was && !v && ReturnsFirst(l, w.ifs, order, FirstChange(from, to, rpc)))
  {
    if w.sig.was == v {
      TransitedKeepsTold(l, w, order, true, from, to);
      WalkKeepsTold(l, Transited(l, w, order, true, from, to), order, |order|, true, ToRpc(rpc));
    } else if v {
      InTreeIsTold(l, w, order, from, to, rpc);
    } else {
      UnawaresIsTold(l, w, order, from, to, rpc);
    }
  }

  lemma InTreeIsTold(l: Links, w: Walk, order: seq<Vif>, from: TreeState, to: TreeState, rpc: Metric)
    requires (forall n :: 0 <= n < |order| ==> order[n] in w.ifs) && w.sig.last == Some(true) && l.InTree(w.ifs)
    ensures var r := Finished(l, w, order, true, from, to, rpc); r.sig == Sig(true, Some(true))
  {
    WalkInTree(l, w, order, |order|, ToState(to));
    WalkInTree(l, Transited(l, w, order, true, from, to), order, |order|, ToRpc(rpc));
  }

  lemma UnawaresIsTold(l: Links, w: Walk, order: seq<Vif>, from: TreeState, to: TreeState, rpc: Metric)
    requires Distinct(order) && (forall n :: 0 <= n < |order| ==> order[n] in w.ifs) && !to.Inactive?
    requires w.sig == UNAWARES && !l.InTree(w.ifs)
    ensures var r := Finished(l, w, order, true, from, to, rpc);
            r.sig.last == Some(r.sig.was) <==> !ReturnsFirst(l, w.ifs, order, FirstChange(from, to, rpc))
  {
    var t := Transited(l, w, order, true, from, to);
    if from == to {
      WalkFromUnawares(l, w, order, |order|, ToRpc(rpc));
    } else {
      WalkFromUnawares(l, w, order, |order|, ToState(to));
      if ReturnsFirst(l, w.ifs, order, ToState(to)) {
        WalkInTree(l, t, order, |order|, ToRpc(rpc));
      } else {
        WalkKeepsTold(l, t, order, |order|, true, ToRpc(rpc));
      }
    }
  }

  /** This network update leaves the new best upstream neighbour wrong about the router. In a live
      tree: the router leaves the tree, tells the neighbour so, and returns to the tree without
      telling it. In an Inactive one nothing is told at the swap, and nothing later either if the
      router's interest is what it was; so the neighbour must have been told that before. */
  ghost predicate Overlooked(e: Entry, route: Route, joined: set<Vif>)
    requires e.Valid() && route.inbound != e.inbound
  {
    var cur := Provisional(e.state, BestAt(e, route.inbound), route.rpc);
    ProvisionalNeedsBest(e.state, BestAt(e, route.inbound), route.rpc);
    HalfSwappedFacts(e, route.inbound, route.rpc, cur, joined);
    SwappedShape(e, route.inbound, route.rpc, cur, joined);
    var m := SwappedTo(e, route.inbound, route.rpc, cur, joined);
    && BestAt(e, route.inbound).Some?
    && if e.state.Inactive? then
         && e.was == m.InTree()
         && LastInterest(e.log, route.inbound.value, BestAt(e, route.inbound).value.claim.ip) != Some(e.was)
       else
         && e.was
         && !HalfSwapped(e, route.inbound, route.rpc, cur, joined).InTree()
         && ReturnsFirst(e.links, m.ifs, m.order, FirstChange(e.state, m.Classified(), route.rpc))
  }

  ghost predicate RightUnlessOverlooked(e: Entry, route: Route, joined: set<Vif>, f: Entry)
    requires e.Valid() && route.inbound != e.inbound
  {
    f.Signalled() <==> !Overlooked(e, route, joined)
  }

  lemma RepricedIsKnown(e: Entry, e2: Entry)
    requires e.Consistent() && e.Known() && e.state == e.Classified() && Follows(e, e2, ToRpc(e.rpc))
    requires e2.state == e.state && e2.rpc == e.rpc
    ensures e2.Known() && e2.Priced() && e2.state == e2.Classified()
    ensures forall i :: i in e.ifs ==> e2.ifs[i].members == e.ifs[i].members
  {
    forall i | i in e2.ifs
      ensures e2.ifs[i].cur == e.ifs[i].cur && e2.ifs[i].members == e.ifs[i].members
      ensures e2.ifs[i].NonRoot? ==> e2.ifs[i].rpc == e.rpc
    {
      assert e.IfOk(i);
      if e.ifs[i].NonRoot? {
        ChangeKeepsElected(e.links, i, e.ifs[i], ToRpc(e.rpc));
      }
    }
  }

  lemma SwappedIsNearlyKnown(e: Entry, m: Entry, to: Option<Vif>, cur: TreeState)
    requires e.Valid() && m.links == e.links && m.state == e.state
    requires forall k :: k in m.ifs && Some(k) != e.inbound && Some(k) != to ==> k in e.ifs && m.ifs[k] == e.ifs[k]
    requires forall k :: k in m.ifs && (Some(k) == e.inbound || Some(k) == to) ==> m.ifs[k].cur == cur
    requires cur == e.state || cur == m.Classified()
    ensures m.NearlyKnown()
  {
  }

  /** The interfaces created by a swap know the state that the tree is then found to be in. */
  lemma ProvisionalFits(e: Entry, m: Entry, route: Route)
    requires e.Valid() && m.upstream == e.upstream && m.inbound == route.inbound && m.rpc == route.rpc
    requires m.ifs.Keys == e.ifs.Keys + (if route.inbound.Some? then {route.inbound.value} else {})
    ensures var cur := Provisional(e.state, BestAt(e, route.inbound), route.rpc);
            && CurFits(e, route.inbound, cur) && (cur == e.state || cur == m.Classified())
            && (!e.state.Inactive? ==> !m.Classified().Inactive?)
  {
    assert m.ifs != map[] <==> m.ifs.Keys != {};
    assert e.ifs != map[] <==> e.ifs.Keys != {};
    ProvisionalIsFinal(e, route.inbound, route.rpc);
    ProvisionalNeedsBest(e.state, BestAt(e, route.inbound), route.rpc);
  }

  /** All that the rest of `network_update` needs to know of a swap. */
  lemma SwapFacts(e: Entry, route: Route, joined: set<Vif>, cur: TreeState, m: Entry)
    requires e.Valid() && route.inbound != e.inbound && cur == Provisional(e.state, BestAt(e, route.inbound), route.rpc)
    requires !e.state.Inactive? && cur.Active? ==> BestAt(e, route.inbound).Some?
    requires m == SwappedTo(e, route.inbound, route.rpc, cur, joined)
    ensures m.Consistent() && m.NearlyKnown() && (route.rpc == e.rpc ==> m.Priced())
    ensures !e.state.Inactive? ==> !m.Classified().Inactive?
    ensures m.Upstream().Some? <==> BestAt(e, route.inbound).Some?
    ensures CurFits(e, route.inbound, cur)
  {
    HalfSwappedFacts(e, route.inbound, route.rpc, cur, joined);
    SwappedShape(e, route.inbound, route.rpc, cur, joined);
    ProvisionalFits(e, m, route);
    SwappedIsConsistent(e, route.inbound, route.rpc, cur, joined);
    SwappedIsNearlyKnown(e, m, route.inbound, cur);
    SwappedIsPriced(e, m, route.inbound, HalfSwapped(e, route.inbound, route.rpc, cur, joined));
  }

  lemma SwappedIsPriced(e: Entry, m: Entry, to: Option<Vif>, h: Entry)
    requires e.Priced() && m.Shape() && m.inbound == to != e.inbound
    requires forall k :: k in m.ifs && Some(k) != e.inbound && Some(k) != to ==> k in e.ifs && m.ifs[k] == e.ifs[k]
    requires e.inbound.Some? && e.inbound.value in m.ifs ==> m.ifs[e.inbound.value].NonRoot? && m.ifs[e.inbound.value].rpc == m.rpc
    ensures m.rpc == e.rpc ==> m.Priced()
  {
  }

  lemma SwapBasics(e: Entry, route: Route, joined: set<Vif>, cur: TreeState, m: Entry)
    requires e.Valid() && route.inbound != e.inbound && cur == Provisional(e.state, BestAt(e, route.inbound), route.rpc)
    requires !e.state.Inactive? && cur.Active? ==> BestAt(e, route.inbound).Some?
    requires m == SwappedTo(e, route.inbound, route.rpc, cur, joined)
    ensures m.Shape() && (!e.state.Inactive? ==> !m.Classified().Inactive?)
    ensures m.Upstream().Some? <==> BestAt(e, route.inbound).Some?
    ensures CurFits(e, route.inbound, cur)
    ensures !e.state.Inactive? ==>
              (Overlooked(e, route, joined) <==>
                 && m.Upstream().Some? && e.was && !HalfSwapped(e, route.inbound, route.rpc, cur, joined).InTree()
                 && ReturnsFirst(e.links, m.ifs, m.order, FirstChange(e.state, m.Classified(), route.rpc)))
    ensures e.state.Inactive? ==>
              (Overlooked(e, route, joined) <==>
                 && m.Upstream().Some? && e.was == m.InTree()
                 && LastInterest(e.log, route.inbound.value, BestAt(e, route.inbound).value.claim.ip) != Some(e.was))
  {
    HalfSwappedFacts(e, route.inbound, route.rpc, cur, joined);
    SwappedShape(e, route.inbound, route.rpc, cur, joined);
    ProvisionalFits(e, m, route);
  }

  lemma ToldAtEnd(m: Entry, f: Entry, v: bool, to: TreeState, rpc: Metric)
    requires m.Shape() && !to.Inactive? && f.Upstream() == m.Upstream()
    requires m.Upstream().Some? ==> m.GetSig() == Sig(m.was, Some(v)) && (m.InTree() ==> v) && (v ==> m.was || m.InTree())
    requires f.AsWalk() == Finished(m.links, m.AsWalk(), m.order, m.Upstream().Some?, m.state, to, rpc)
    ensures f.Signalled() <==>
              !(m.Upstream().Some? && m.was && !v && ReturnsFirst(m.links, m.ifs, m.order, FirstChange(m.state, to, rpc)))
  {
    if m.Upstream().Some? {
      WhatWasTold(m.links, m.AsWalk(), m.order, m.state, to, rpc, v);
    }
  }

  /** What the best upstream neighbour knows at the end. */
  lemma SwapTold(e: Entry, route: Route, joined: set<Vif>, cur: TreeState, m: Entry, f: Entry)
    requires e.Valid() && route.inbound != e.inbound && cur == Provisional(e.state, BestAt(e, route.inbound), route.rpc)
    requires !e.state.Inactive? && cur.Active? ==> BestAt(e, route.inbound).Some?
    requires m == SwappedTo(e, route.inbound, route.rpc, cur, joined) && f.Upstream() == m.Upstream()
    requires f.AsWalk() == Finished(e.links, m.AsWalk(), m.order, m.Upstream().Some?, e.state, m.Classified(), route.rpc)
    ensures f.Signalled() <==> !Overlooked(e, route, joined)
  {
    if e.state.Inactive? {
      RevivedTold(e, route, joined, m, f);
    } else {
      LiveTold(e, route, joined, cur, m, f);
    }
  }

  // In a tree that was Inactive.

  /** The roles are exchanged in silence, and every interface is as an Inactive tree's is. */
  lemma SilentSwap(e: Entry, route: Route, joined: set<Vif>, m: Entry)
    requires e.Valid() && e.state.Inactive? && route.inbound != e.inbound
    requires m == SwappedTo(e, route.inbound, route.rpc, Inactive, joined)
    ensures m.log == e.log && m.was == e.was && m.links == e.links && Steadfast(m.links, m.ifs) && m.Shape()
    ensures m.upstream == e.upstream && m.inbound == route.inbound
  {
    HalfSwappedFacts(e, route.inbound, route.rpc, Inactive, joined);
    SwappedShape(e, route.inbound, route.rpc, Inactive, joined);
    SwappedIsConsistent(e, route.inbound, route.rpc, Inactive, joined);
    forall i | i in m.ifs && m.ifs[i].NonRoot? && !m.links.Connected(i) ensures m.ifs[i].winner {
      assert m.IfOk(i);
    }
  }

  lemma FinishedSteadfast(l: Links, w: Walk, order: seq<Vif>, from: TreeState, to: TreeState, rpc: Metric)
    requires (forall n :: 0 <= n < |order| ==> order[n] in w.ifs) && Steadfast(l, w.ifs)
    ensures Finished(l, w, order, true, from, to, rpc).sig == w.sig.Evaluate(true, l.InTree(w.ifs))
  {
    SteadfastWalk(l, w, order, |order|, true, ToState(to));
    SteadfastWalk(l, Transited(l, w, order, true, from, to), order, |order|, true, ToRpc(rpc));
  }

  lemma RevivedTold(e: Entry, route: Route, joined: set<Vif>, m: Entry, f: Entry)
    requires e.Valid() && e.state.Inactive? && route.inbound != e.inbound
    requires m == SwappedTo(e, route.inbound, route.rpc, Provisional(Inactive, BestAt(e, route.inbound), route.rpc), joined)
    requires f.Upstream() == m.Upstream()
    requires f.AsWalk() == Finished(e.links, m.AsWalk(), m.order, m.Upstream().Some?, e.state, m.Classified(), route.rpc)
    ensures f.Signalled() <==> !Overlooked(e, route, joined)
  {
    SilentSwap(e, route, joined, m);
    SwapBasics(e, route, joined, Inactive, m);
    if m.Upstream().Some? {
      FinishedSteadfast(m.links, m.AsWalk(), m.order, e.state, m.Classified(), route.rpc);
    }
  }

  lemma LiveTold(e: Entry, route: Route, joined: set<Vif>, cur: TreeState, m: Entry, f: Entry)
    requires e.Valid() && route.inbound != e.inbound && cur == Provisional(e.state, BestAt(e, route.inbound), route.rpc)
    requires !e.state.Inactive? && cur.Active? ==> BestAt(e, route.inbound).Some?
    requires m == SwappedTo(e, route.inbound, route.rpc, cur, joined) && !e.state.Inactive?
    requires f.Upstream() == m.Upstream()
    requires f.AsWalk() == Finished(e.links, m.AsWalk(), m.order, m.Upstream().Some?, e.state, m.Classified(), route.rpc)
    ensures f.Signalled() <==> !Overlooked(e, route, joined)
  {
    var h := HalfSwapped(e, route.inbound, route.rpc, cur, joined);
    SwapBasics(e, route, joined, cur, m);
    if m.Upstream().Some? {
      SwappedSig(e, route.inbound, route.rpc, cur, joined);
      SwappedInTree(e, route.inbound, route.rpc, cur, joined);
    }
    ToldAtEnd(m, f, h.InTree(), m.Classified(), route.rpc);
  }

  /** Without a swap nothing can go unnoticed: what was told stays true through both walks. */
  lemma RepricedIsValid(e: Entry, e2: Entry)
    requires e.Shape() && e.was == e.InTree() && e2.Consistent() && e2.Known() && e2.Priced() && e2.state == e2.Classified()
    requires e2.Upstream() == e.Upstream() && e2.links == e.links
    requires e2.AsWalk() == Walked(e.links, Transited(e.links, e.AsWalk(), e.order, e.Upstream().Some?, e.state, e2.state),
                                   e.order, |e.order|, e.Upstream().Some?, ToRpc(e2.rpc))
    ensures e2.Valid() && (e.Signalled() ==> e2.Signalled())
  {
    TransitedKeepsTold(e.links, e.AsWalk(), e.order, e.Upstream().Some?, e.state, e2.state);
    WalkKeepsTold(e.links, Transited(e.links, e.AsWalk(), e.order, e.Upstream().Some?, e.state, e2.state),
                  e.order, |e.order|, e.Upstream().Some?, ToRpc(e2.rpc));
  }

  lemma InactivatedIsValid(e: Entry, e2: Entry)
    requires e.Valid() && e2.Consistent() && e2.state == Inactive && e2.Upstream() == e.Upstream()
    requires if e.state == Inactive then e2 == e else Follows(e, e2, ToState(Inactive)) && e2.rpc == e.rpc
    requires e2.AsWalk() == Transited(e.links, e.AsWalk(), e.order, e.Upstream().Some?, e.state, Inactive)
    ensures e2.Valid() && (e.Signalled() ==> e2.Signalled())
  {
    TransitedKeepsTold(e.links, e.AsWalk(), e.order, e.Upstream().Some?, e.state, Inactive);
    forall i | i in e2.ifs
      ensures !e.links.Connected(i) ==> e2.ifs[i].cur == Inactive
      ensures e.ifs[i].NonRoot? ==> e2.ifs[i].NonRoot? && e2.ifs[i].rpc == e.ifs[i].rpc
    {
      assert e.IfOk(i);
      if e.ifs[i].NonRoot? {
        ChangeKeepsElected(e.links, i, e.ifs[i], ToState(Inactive));
      }
    }
  }

  // ----- A new interface -----

  /** The new interface as it first appears: its link has no neighbours yet. */
  function Opening(e: Entry, i: Vif, x: TreeIf, inbound: Option<Vif>): Entry {
    e.(interest := e.interest[i := false], upstream := e.upstream[i := None], inbound := inbound,
       ifs := e.ifs[i := x], order := e.order + [i], log := e.log + [Opened(i, Sync(x, e.links.Connected(i)))])
  }

  predicate OpensAs(e: Entry, i: Vif, x: TreeIf, inbound: Option<Vif>) {
    && i !in e.ifs && x.best.None? && x.cur == e.state
    && if x.Root? then e.inbound.None? && inbound == Some(i)
       else inbound == e.inbound && !x.interested && x.rpc == e.rpc && x == Elect(x, e.links.Address(i)) && !x.onHold
  }

  lemma OpeningIsConsistent(e: Entry, i: Vif, x: TreeIf, inbound: Option<Vif>)
    requires e.Consistent() && OpensAs(e, i, x, inbound)
    ensures Opening(e, i, x, inbound).Consistent()
  {
    var m := Opening(e, i, x, inbound);
    SaidOne(e.log, Opened(i, Sync(x, e.links.Connected(i))));
    OpeningShape(e, i, x, inbound);
    OpeningIfOk(e, i, x, inbound);
    RebuiltIsConsistent(e, m, {i});
  }

  lemma OpeningIfOk(e: Entry, i: Vif, x: TreeIf, inbound: Option<Vif>)
    requires OpensAs(e, i, x, inbound)
    ensures Opening(e, i, x, inbound).IfOk(i)
  {
    SaidOne(e.log, Opened(i, Sync(x, e.links.Connected(i))));
  }

  lemma OpeningShape(e: Entry, i: Vif, x: TreeIf, inbound: Option<Vif>)
    requires e.Shape() && OpensAs(e, i, x, inbound)
    ensures Opening(e, i, x, inbound).Shape()
  {
    assert e.order + [i] == Appended(e.order, i);
    AppendKeepsDistinct(e.order, i);
  }

  lemma OpeningSig(e: Entry, i: Vif, x: TreeIf, inbound: Option<Vif>)
    requires e.Shape() && e.Known() && e.Priced() && OpensAs(e, i, x, inbound)
    ensures var m := Opening(e, i, x, inbound);
            && m.Known() && m.Priced() && (e.Signalled() ==> m.Signalled())
  {
    SaidOne(e.log, Opened(i, Sync(x, e.links.Connected(i))));
  }

  /** The state the interfaces get that change roles when the new interface is the way to the source. */
  function ProvisionalOnOpening(state: TreeState): TreeState {
    if state.Active? then Unsure else state
  }

  /** The new interface is the root interface from now on, the old root interface is not any more. */
  ghost function OpeningRoot(e: Entry, i: Vif, joined: set<Vif>): Entry
    requires e.inbound.Some?
  {
    var o := e.(interest := e.interest[i := false], upstream := e.upstream[i := None], log := e.log + [Opened(i, None)]);
    SwappedTo(o, Some(i), e.rpc, ProvisionalOnOpening(e.state), joined)
  }

  lemma OpeningRootIsConsistent(e: Entry, i: Vif, joined: set<Vif>)
    requires e.Valid() && i !in e.ifs && e.inbound.Some?
    ensures var m := OpeningRoot(e, i, joined);
            && m.Consistent() && m.NearlyKnown() && m.Priced() && m.Upstream().None?
            && m.ifs.Keys == e.ifs.Keys + {i}
  {
    var o := e.(interest := e.interest[i := false], upstream := e.upstream[i := None], log := e.log + [Opened(i, None)]);
    SaidOne(e.log, Opened(i, None));
    assert o.Consistent() by {
      RebuiltIsConsistent(e, o, {});
    }
    OpeningSwap(o, i, joined);
    OpeningKnows(e, OpeningRoot(e, i, joined), i);
  }

  lemma OpeningSwap(o: Entry, i: Vif, joined: set<Vif>)
    requires o.Consistent() && o.Known() && o.Priced() && i !in o.ifs && o.inbound.Some? && GetOr(o.upstream, i, None) == None
    ensures var cur := ProvisionalOnOpening(o.state);
            var m := SwappedTo(o, Some(i), o.rpc, cur, joined);
            && m.Consistent() && m.Priced()
            && m.ifs.Keys == o.ifs.Keys + {i} && m.ifs[i].best == None
            && (forall k :: k in m.ifs && Some(k) != o.inbound && k != i ==> k in o.ifs && m.ifs[k] == o.ifs[k])
            && (forall k :: k in m.ifs && (Some(k) == o.inbound || k == i) ==> m.ifs[k].cur == cur)
  {
    var cur := ProvisionalOnOpening(o.state);
    var h, m := HalfSwapped(o, Some(i), o.rpc, cur, joined), SwappedTo(o, Some(i), o.rpc, cur, joined);
    HalfSwappedFacts(o, Some(i), o.rpc, cur, joined);
    SwappedShape(o, Some(i), o.rpc, cur, joined);
    NewRootFacts(o, h, i, cur, i in joined);
    SwapRebuilt(o, h, m, Some(i));
    SwappedIsPriced(o, m, Some(i), h);
  }

  lemma OpeningKnows(e: Entry, m: Entry, i: Vif)
    requires e.Valid() && e.inbound.Some? && i !in e.ifs && m.links == e.links && m.state == e.state
    requires m.inbound == Some(i) && m.upstream == e.upstream[i := None] && m.rpc == e.rpc && i in m.ifs
    requires forall k :: k in m.ifs && Some(k) != e.inbound && k != i ==> k in e.ifs && m.ifs[k] == e.ifs[k]
    requires forall k :: k in m.ifs && (Some(k) == e.inbound || k == i) ==> m.ifs[k].cur == ProvisionalOnOpening(e.state)
    ensures m.NearlyKnown()
  {
    if e.state.Active? {
      var r := e.inbound.value;
      assert GetOr(e.upstream, r, None).Some?;
      assert r in m.upstream && m.upstream[r].Some?;
      assert m.Classified() == Unsure;
    }
  }

  // ----- A new entry -----

  /** The entry while its non-root interfaces are created, one by one. */
  ghost predicate Growing(e: Entry) {
    e.inbound.None? && e.Consistent() && e.Known() && e.Priced()
  }

  /** A non-root interface more, with what is cached for its link. */
  function Grown(e: Entry, i: Vif, members: bool): Entry {
    AddNonRoot(e, i, e.rpc, GetOr(e.upstream, i, None), GetOr(e.interest, i, false), false, Inactive, e.state, members)
  }

  lemma GrownIsConsistent(e: Entry, i: Vif, members: bool)
    requires Growing(e) && i !in e.ifs
    ensures Growing(Grown(e, i, members))
  {
    GrownNonRoot(e, i, members);
    AppendKeepsDistinct(e.order, i);
    OneIsAdded(e, Grown(e, i, members), i);
  }

  lemma GrownNonRoot(e: Entry, i: Vif, members: bool)
    requires Growing(e) && i !in e.ifs
    ensures var m := Grown(e, i, members);
            && SilentWhereAsking(m.log) && m.IfOk(i) && forall k :: k != i ==> Announced(m.log, k) == Announced(e.log, k)
  {
    GreetingInforms(e.links, i, e.rpc, GetOr(e.upstream, i, None), GetOr(e.interest, i, false), members, false, Inactive,
                    e.state, e.log);
  }

  /** With its root interface, if it has one, the entry is complete, and the best upstream neighbour
      knows about the router. */
  function Completed(e: Entry, root: Option<Vif>, joined: set<Vif>, inTree: bool): Entry {
    if root.Some? then
      AddRoot(e, root.value, GetOr(e.upstream, root.value, None), false, Inactive, e.state, root.value in joined, inTree)
      .(inbound := root, was := inTree)
    else e.(was := inTree)
  }

  lemma CompletedIsConsistent(e: Entry, root: Option<Vif>, joined: set<Vif>)
    requires Growing(e) && (root.Some? ==> root.value !in e.ifs)
    ensures var m := Completed(e, root, joined, e.InTree());
            && m.Consistent() && m.Known() && m.Priced() && m.was == m.InTree() && m.Signalled()
  {
    if root.Some? {
      CompletedWithRoot(e, root.value, joined);
    } else {
      RebuiltIsConsistent(e, Completed(e, root, joined, e.InTree()), {});
    }
  }

  lemma CompletedWithRoot(e: Entry, i: Vif, joined: set<Vif>)
    requires Growing(e) && i !in e.ifs
    ensures var m := Completed(e, Some(i), joined, e.InTree());
            && m.Consistent() && m.Known() && m.Priced() && m.was == m.InTree() && m.Signalled()
  {
    CompletedShape(e, i, joined);
    CompletedRoot(e, i, joined);
    OneIsAdded(e, Completed(e, Some(i), joined, e.InTree()), i);
    CompletedTold(e, i, joined);
  }

  lemma CompletedRoot(e: Entry, i: Vif, joined: set<Vif>)
    requires Growing(e) && i !in e.ifs
    ensures var m := Completed(e, Some(i), joined, e.InTree());
            && SilentWhereAsking(m.log) && m.IfOk(i) && forall k :: k != i ==> Announced(m.log, k) == Announced(e.log, k)
  {
    RootGreetingInforms(i, GetOr(e.upstream, i, None), false, Inactive, e.state, e.InTree(), e.log);
  }

  /** One interface more, which is as it should be. */
  lemma OneIsAdded(e: Entry, m: Entry, i: Vif)
    requires e.Consistent() && i !in e.ifs && m.Shape() && m.ifs.Keys == e.ifs.Keys + {i} && SilentWhereAsking(m.log)
    requires m.links == e.links && m.upstream == e.upstream && m.interest == e.interest && m.IfOk(i)
    requires forall k :: k in e.ifs ==> m.ifs[k] == e.ifs[k]
    requires forall k :: k != i ==> Announced(m.log, k) == Announced(e.log, k)
    ensures m.Consistent()
  {
    RebuiltIsConsistent(e, m, {i});
  }

  lemma CompletedShape(e: Entry, i: Vif, joined: set<Vif>)
    requires Growing(e) && i !in e.ifs
    ensures var m := Completed(e, Some(i), joined, e.InTree()); m.Shape() && m.Known() && m.Priced()
  {
    AppendKeepsDistinct(e.order, i);
  }

  lemma CompletedTold(e: Entry, i: Vif, joined: set<Vif>)
    requires Growing(e) && i !in e.ifs
    ensures var m := Completed(e, Some(i), joined, e.InTree()); m.was == m.InTree() && m.Signalled()
  {
    var m := Completed(e, Some(i), joined, e.InTree());
    RootGreetingInforms(i, GetOr(e.upstream, i, None), false, Inactive, e.state, e.InTree(), e.log);
    RootAddsNothing(e.links, e.ifs, i, m.ifs[i]);
  }

  lemma EmptyGrows(e: Entry)
    requires e.inbound.None? && e.ifs == map[] && e.order == [] && e.log == []
    ensures Growing(e)
  {
  }

  lemma RootAddsNothing(l: Links, ifs: map<Vif, TreeIf>, i: Vif, x: TreeIf)
    requires i !in ifs && x.Root?
    ensures l.InTree(ifs[i := x]) == l.InTree(ifs)
  {
    if l.InTree(ifs) {
      var k :| k in ifs && l.Forward(k, ifs[k]);
      assert k in ifs[i := x] && l.Forward(k, ifs[i := x][k]);
    }
  }

  /** An entry without interfaces knows of no upstream neighbour either. */
  lemma ClassifiedAtFirst(e: Entry)
    requires e.state == Classify(e.inbound, true, e.upstream, e.rpc) && forall i :: i in e.upstream ==> i in e.ifs
    requires e.inbound.Some? ==> e.inbound.value in e.ifs
    ensures e.state == e.Classified()
  {
  }
}
