/** In an Unsure tree a router wants no data from the upstream neighbours of its other links, and tells
    the best of each link so: when the handlers keep that, and the one step that does not. */
module Refusal {
  import opened Types
  import opened Metrics
  import opened TreeSpec
  import opened TreeEntry

  /** The best upstream neighbour of a link that is not the root link was last told that the router is
      not interested. */
  ghost predicate RefusedAt(e: Entry, i: Vif)
    requires i in e.ifs
  {
    var x := e.ifs[i];
    x.NonRoot? && x.cur.Unsure? && x.best.Some? ==> LastInterest(e.log, i, x.best.value.claim.ip) == Some(false)
  }

  ghost predicate Refused(e: Entry) {
    forall i :: i in e.ifs ==> RefusedAt(e, i)
  }

  /** Nobody but the neighbours on the root link was asked for anything, or told anything of the kind. */
  ghost predicate AskedAs(root: Option<Vif>, before: seq<Out>, after: seq<Out>) {
    forall j: Vif, to: Ip :: root != Some(j) ==> LastInterest(after, j, to) == LastInterest(before, j, to)
  }

  // ----- What one interface tells its best upstream neighbour -----

  /** A non-root interface that becomes Unsure renounces. */
  predicate Renounces(x: TreeIf, ch: Change) {
    ch == ToState(Unsure) && x.NonRoot? && !x.cur.Unsure? && x.best.Some?
  }

  function LastTold(x: TreeIf, ch: Change, to: Ip, before: Option<bool>): Option<bool> {
    if Renounces(x, ch) && to == x.best.value.claim.ip then Some(false) else before
  }

  /** Interface `i` was told of the change, and nobody else off the root link heard anything. */
  ghost predicate ToldAs(root: Option<Vif>, i: Vif, x: TreeIf, ch: Change, before: seq<Out>, after: seq<Out>) {
    forall j: Vif, to: Ip :: root != Some(j) ==>
      LastInterest(after, j, to) == if j == i then LastTold(x, ch, to, LastInterest(before, j, to)) else LastInterest(before, j, to)
  }

  /** Who was refused still is, and if nothing changes about that, nobody else. */
  ghost predicate StillRefused(e: Entry, e2: Entry, same: bool) {
    forall i {:trigger RefusedAt(e2, i)} :: i in e.ifs && i in e2.ifs ==>
      (RefusedAt(e, i) ==> RefusedAt(e2, i)) && (same && RefusedAt(e2, i) ==> RefusedAt(e, i))
  }

  lemma StillRefusedOnwards(e: Entry, m: Entry, e2: Entry, same: bool)
    requires StillRefused(e, m, same) && StillRefused(m, e2, same) && e.ifs.Keys == m.ifs.Keys == e2.ifs.Keys
    ensures StillRefused(e, e2, same)
  {
    forall i | i in e.ifs && i in e2.ifs
      ensures (RefusedAt(e, i) ==> RefusedAt(e2, i)) && (same && RefusedAt(e2, i) ==> RefusedAt(e, i))
    {
      assert RefusedAt(e, i) ==> RefusedAt(m, i);
    }
  }

  lemma AllStillRefused(e: Entry, e2: Entry, same: bool)
    requires StillRefused(e, e2, same) && e.ifs.Keys == e2.ifs.Keys
    ensures (Refused(e) ==> Refused(e2)) && (same ==> (Refused(e) <==> Refused(e2)))
  {
    assert forall i :: i in e.ifs ==> (RefusedAt(e, i) ==> RefusedAt(e2, i)) && (same && RefusedAt(e2, i) ==> RefusedAt(e, i));
  }

  lemma ToldKeepsRefused(e: Entry, e2: Entry, i: Vif, ch: Change)
    requires e.Shape() && e2.inbound == e.inbound && i in e.ifs
    requires e2.ifs == e.ifs[i := e.links.Change(i, e.ifs[i], ch)] && ToldAs(e.inbound, i, e.ifs[i], ch, e.log, e2.log)
    ensures StillRefused(e, e2, ch.ToRpc?)
  {
    assert forall j :: j in e.ifs && j != i ==> e2.ifs[j] == e.ifs[j] && (RefusedAt(e2, j) <==> RefusedAt(e, j));
    assert RefusedAt(e, i) ==> RefusedAt(e2, i);
    assert ch.ToRpc? ==> (RefusedAt(e, i) <==> RefusedAt(e2, i));
    assert forall j :: j in e2.ifs <==> j in e.ifs;
  }

  /** Sending to the root link, and changing what does not matter here, changes nothing. */
  lemma SentKeepsRefused(e: Entry, e2: Entry)
    requires e.Shape() && e2.inbound == e.inbound && e2.ifs == e.ifs && AskedAs(e.inbound, e.log, e2.log)
    ensures Refused(e) <==> Refused(e2)
  {
    assert forall j :: j in e.ifs ==> (RefusedAt(e2, j) <==> RefusedAt(e, j));
  }

  predicate SameForRefusal(x: TreeIf, y: TreeIf) {
    (y.NonRoot? <==> x.NonRoot?) && (x.NonRoot? ==> y.cur == x.cur && y.best == x.best)
  }

  lemma OneKeepsRefused(e: Entry, e2: Entry, i: Vif)
    requires e.Shape() && e2.inbound == e.inbound && i in e.ifs && i in e2.ifs
    requires e2.ifs == e.ifs[i := e2.ifs[i]] && SameForRefusal(e.ifs[i], e2.ifs[i]) && AskedAs(e.inbound, e.log, e2.log)
    ensures Refused(e) <==> Refused(e2)
  {
    assert forall j :: j in e.ifs ==> (RefusedAt(e2, j) <==> RefusedAt(e, j));
  }

  /** A non-root interface got another best upstream neighbour, which in an Unsure tree was told at
      once unless it is the one it was. */
  lemma NewBestIsRefused(e: Entry, e2: Entry, i: Vif, told: bool)
    requires e.Shape() && e2.inbound == e.inbound && i in e.ifs && e.ifs[i].NonRoot? && i in e2.ifs && e2.ifs[i].NonRoot?
    requires e2.ifs == e.ifs[i := e2.ifs[i]] && e2.ifs[i].cur == e.ifs[i].cur
    requires told ==> e2.ifs[i].best.Some?
    requires e.ifs[i].cur.Unsure? && e2.ifs[i].best.Some? ==> told || e2.ifs[i].best == e.ifs[i].best
    requires forall j: Vif, to: Ip :: e.inbound != Some(j) ==>
               LastInterest(e2.log, j, to) ==
                 if told && j == i && to == e2.ifs[i].best.value.claim.ip then Some(false) else LastInterest(e.log, j, to)
    ensures Refused(e) ==> Refused(e2)
  {
    if Refused(e) {
      forall j | j in e2.ifs ensures RefusedAt(e2, j) {
        assert j in e.ifs && RefusedAt(e, j);
      }
    }
  }

  /** The interface goes. */
  lemma RemovedKeepsRefused(e: Entry, i: Vif)
    requires e.Shape() && i in e.ifs
    ensures Refused(e) ==> Refused(Removed(e, i))
  {
    SaidOne(e.log, Closed(i));
    if Refused(e) {
      forall j | j in Removed(e, i).ifs ensures RefusedAt(Removed(e, i), j) {
        assert j in e.ifs && RefusedAt(e, j);
      }
    }
  }

  /** A new interface without neighbours. */
  lemma OpeningKeepsRefused(e: Entry, i: Vif, x: TreeIf, inbound: Option<Vif>)
    requires e.Shape() && OpensAs(e, i, x, inbound)
    ensures Refused(e) ==> Refused(Opening(e, i, x, inbound))
  {
    SaidOne(e.log, Opened(i, Sync(x, e.links.Connected(i))));
    if Refused(e) {
      forall j | j in Opening(e, i, x, inbound).ifs ensures RefusedAt(Opening(e, i, x, inbound), j) {
        if j != i {
          assert j in e.ifs && RefusedAt(e, j);
        }
      }
    }
  }

  // ----- Interfaces that are created -----

  lemma SaidTwo(log: seq<Out>, said: seq<Out>, i: Vif, to: Ip)
    requires |said| <= 2
    ensures LastInterest(log + said, i, to) ==
              if |said| > 0 && said[|said| - 1] == Interest(i, to) then Some(true)
              else if |said| > 0 && said[|said| - 1] == NoInterest(i, to) then Some(false)
              else if |said| > 1 && said[0] == Interest(i, to) then Some(true)
              else if |said| > 1 && said[0] == NoInterest(i, to) then Some(false)
              else LastInterest(log, i, to)
  {
    if |said| == 0 {
      assert log + said == log;
    } else if |said| == 1 {
      assert said == [said[0]];
      SaidOne(log, said[0]);
    } else {
      SaidOne(log, said[0]);
      SaidOne(log + [said[0]], said[1]);
      assert log + said == log + [said[0]] + [said[1]];
    }
  }

  /** A non-root interface that is created in an Unsure tree renounces, unless the tree was Unsure
      before: then it says nothing. */
  lemma GreetingRefuses(l: Links, i: Vif, rpc: Metric, best: Best, wasRoot: bool, prev: TreeState, log: seq<Out>)
    ensures LastInterest(log + NonRootGreets(i, l.Connected(i), rpc, Some(best), wasRoot, prev, Unsure), i, best.claim.ip)
            == if prev.Unsure? then LastInterest(log, i, best.claim.ip) else Some(false)
  {
    SaidTwo(log, NonRootGreets(i, l.Connected(i), rpc, Some(best), wasRoot, prev, Unsure), i, best.claim.ip);
  }

  lemma GrownIsRefused(e: Entry, i: Vif, members: bool)
    requires i !in e.ifs && Refused(e)
    ensures Refused(Grown(e, i, members))
  {
    var m, best := Grown(e, i, members), GetOr(e.upstream, i, None);
    var said := NonRootGreets(i, e.links.Connected(i), e.rpc, best, false, Inactive, e.state);
    SaidOnLink(e.log, said, i);
    if best.Some? && e.state.Unsure? {
      GreetingRefuses(e.links, i, e.rpc, best.value, false, Inactive, e.log);
    }
    forall j | j in m.ifs ensures RefusedAt(m, j) {
      if j != i {
        assert j in e.ifs && RefusedAt(e, j);
      }
    }
  }

  lemma CompletedIsRefused(e: Entry, root: Option<Vif>, joined: set<Vif>, inTree: bool)
    requires Refused(e) && (root.Some? ==> root.value !in e.ifs)
    ensures Refused(Completed(e, root, joined, inTree))
  {
    var m := Completed(e, root, joined, inTree);
    if root.Some? {
      SaidOnLink(e.log, RootGreets(root.value, GetOr(e.upstream, root.value, None), false, Inactive, e.state, inTree), root.value);
    }
    forall j | j in m.ifs ensures RefusedAt(m, j) {
      if Some(j) != root {
        assert j in e.ifs && RefusedAt(e, j);
      }
    }
  }

  // ----- The one step that does not keep it -----

  /** The route moves in a tree that stays Unsure, and the best upstream neighbour of the link that was
      the root link had not been told NoInterest: it is not told now. */
  predicate Unrefused(e: Entry, cur: TreeState) {
    && e.state.Unsure? && cur.Unsure? && e.inbound.Some? && BestAt(e, e.inbound).Some?
    && LastInterest(e.log, e.inbound.value, BestAt(e, e.inbound).value.claim.ip) != Some(false)
  }

  /** Where the best upstream neighbour knew the truth, it happens exactly if the router was in the tree. */
  lemma UnrefusedExactlyIf(e: Entry, cur: TreeState)
    requires e.Valid() && e.Signalled()
    ensures Unrefused(e, cur) <==> e.state.Unsure? && cur.Unsure? && e.Upstream().Some? && e.InTree()
  {
    if e.inbound.Some? {
      assert e.IfOk(e.inbound.value);
    }
  }

  /** What the old root interface's best upstream neighbour was told after the first half of a swap. */
  lemma HalfRefused(e: Entry, to: Option<Vif>, rpc: Metric, cur: TreeState, joined: set<Vif>)
    requires e.Shape() && to != e.inbound && e.inbound.Some?
    ensures var h, r := HalfSwapped(e, to, rpc, cur, joined), e.inbound.value;
            && r in h.ifs && (RefusedAt(h, r) <==> !Unrefused(e, cur))
            && forall j: Vif, n: Ip :: j != r ==> LastInterest(h.log, j, n) == LastInterest(e.log, j, n)
  {
    var r, best := e.inbound.value, BestAt(e, e.inbound);
    SaidOnLink(e.log, NonRootGreets(r, e.links.Connected(r), rpc, best, true, e.state, cur), r);
    if cur.Unsure? && best.Some? {
      GreetingRefuses(e.links, r, rpc, best.value, true, e.state, e.log);
    }
  }

  /** The second half says nothing but on the new root link. */
  lemma SwappedSaid(e: Entry, to: Option<Vif>, rpc: Metric, cur: TreeState, joined: set<Vif>)
    requires !e.state.Inactive? && cur.Active? ==> BestAt(e, to).Some?
    ensures var h, m := HalfSwapped(e, to, rpc, cur, joined), SwappedTo(e, to, rpc, cur, joined);
            && m.inbound == to && (forall j :: j in h.ifs && Some(j) != to ==> j in m.ifs && m.ifs[j] == h.ifs[j])
            && (forall j :: j in m.ifs && Some(j) != to ==> j in h.ifs) && (to.Some? ==> to.value in m.ifs ==> m.ifs[to.value].Root?)
            && forall j: Vif, n: Ip :: Some(j) != to ==> LastInterest(m.log, j, n) == LastInterest(h.log, j, n)
  {
    var h := HalfSwapped(e, to, rpc, cur, joined);
    if to.Some? {
      SaidOnLink(h.log, RootGreets(to.value, BestAt(e, to), true, e.state, cur, h.InTree()), to.value);
    }
  }

  /** A swap of roles leaves everybody refused exactly unless that happens. */
  lemma SwapRefused(e: Entry, to: Option<Vif>, rpc: Metric, cur: TreeState, joined: set<Vif>)
    requires e.Shape() && to != e.inbound && (!e.state.Inactive? && cur.Active? ==> BestAt(e, to).Some?) && Refused(e)
    ensures Refused(SwappedTo(e, to, rpc, cur, joined)) <==> !Unrefused(e, cur)
  {
    var h, m := HalfSwapped(e, to, rpc, cur, joined), SwappedTo(e, to, rpc, cur, joined);
    SwappedSaid(e, to, rpc, cur, joined);
    if e.inbound.Some? {
      HalfRefused(e, to, rpc, cur, joined);
      assert RefusedAt(m, e.inbound.value) <==> RefusedAt(h, e.inbound.value);
    }
    forall j | j in m.ifs && Some(j) != e.inbound ensures RefusedAt(m, j) {
      if Some(j) != to {
        ClearedFacts(e, to);
        assert j in e.ifs && m.ifs[j] == e.ifs[j] && RefusedAt(e, j);
      }
    }
  }

  /** The same when the way to the source is a new interface. */
  lemma OpeningRootRefused(e: Entry, i: Vif, joined: set<Vif>)
    requires e.Shape() && i !in e.ifs && e.inbound.Some? && Refused(e)
    ensures Refused(OpeningRoot(e, i, joined)) <==> !Unrefused(e, e.state)
  {
    var o := e.(interest := e.interest[i := false], upstream := e.upstream[i := None], log := e.log + [Opened(i, None)]);
    SaidOne(e.log, Opened(i, None));
    assert e.inbound.value in e.ifs;
    assert Refused(o) by {
      forall j | j in o.ifs ensures RefusedAt(o, j) {
        assert RefusedAt(e, j);
      }
    }
    SwapRefused(o, Some(i), e.rpc, ProvisionalOnOpening(e.state), joined);
  }

  /** The state that the interfaces get which change roles. */
  function NextState(e: Entry, route: Route): TreeState {
    Provisional(e.state, BestAt(e, route.inbound), route.rpc)
  }

  /** Then the tree is found Unsure, too, so nothing more is said. */
  lemma UnsureIsStable(e: Entry, route: Route, m: Entry)
    requires e.Valid() && m.upstream == e.upstream && m.inbound == route.inbound && m.rpc == route.rpc && m.state == e.state
    requires m.ifs.Keys == e.ifs.Keys + (if route.inbound.Some? then {route.inbound.value} else {})
    ensures Unrefused(e, NextState(e, route)) ==> m.state == m.Classified()
  {
    assert m.ifs != map[] <==> m.ifs.Keys != {};
    assert e.ifs != map[] <==> e.ifs.Keys != {};
    ProvisionalIsFinal(e, route.inbound, route.rpc);
  }

  lemma SwapStable(e: Entry, route: Route, joined: set<Vif>, m: Entry)
    requires e.Valid() && route.inbound != e.inbound
    requires !e.state.Inactive? && NextState(e, route).Active? ==> BestAt(e, route.inbound).Some?
    requires m == SwappedTo(e, route.inbound, route.rpc, NextState(e, route), joined)
    ensures Unrefused(e, NextState(e, route)) ==> m.state == m.Classified()
  {
    HalfSwappedFacts(e, route.inbound, route.rpc, NextState(e, route), joined);
    SwappedShape(e, route.inbound, route.rpc, NextState(e, route), joined);
    UnsureIsStable(e, route, m);
  }
}
