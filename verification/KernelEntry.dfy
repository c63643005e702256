/** The entry of one tree as the object whose handlers update it in place. */
module KernelEntry {
  import opened Types
  import opened Metrics
  import opened TreeSpec
  import opened TreeEntry
  import opened Refusal

  /** The tree interfaces belong to one entry each, so the entry keeps them as values. */
  class KernelEntryNonOriginator {
    const links: Links
    var treeState: TreeState
    var interestState: map<Vif, bool>
    var upstreamState: map<Vif, Option<Best>>
    var rpc: Metric
    var inbound: Option<Vif>
    var interfaces: map<Vif, TreeIf>
    var order: seq<Vif>
    var wasInTree: bool
    var log: seq<Out>

    ghost function View(): Entry
      reads this
    {
      Entry(links, treeState, interestState, upstreamState, rpc, inbound, interfaces, order, wasInTree, log)
    }

    /** The entry of a tree that neighbours may already have told about. */
    constructor (links: Links, vifs: seq<Vif>, upstream: map<Vif, Option<Best>>, interest: map<Vif, bool>, route: Route,
                 joined: set<Vif>)
      requires Distinct(vifs) && forall i :: i in upstream ==> i in vifs
      ensures View().Valid() && View().Signalled() && treeState == View().Classified() && OnlyOffers(log)
      ensures Refused(View())
      ensures this.links == links && inbound == route.inbound && rpc == route.rpc
      ensures upstreamState == upstream && interestState == interest
      ensures interfaces.Keys == (set i | i in vifs) + (if route.inbound.Some? then {route.inbound.value} else {})
    {
      this.links := links;
      upstreamState := upstream;
      interestState := interest;
      rpc := route.rpc;
      inbound := None;
      treeState := Inactive;
      interfaces := map[];
      order := [];
      wasInTree := false;
      log := [];
      new;
      CreateInterfaces(vifs, route.inbound, joined);
    }

    method CreateInterfaces(vifs: seq<Vif>, root: Option<Vif>, joined: set<Vif>)
      requires Distinct(vifs) && forall i :: i in upstreamState ==> i in vifs
      requires inbound.None? && interfaces == map[] && order == [] && log == []
      modifies this`treeState, this`interfaces, this`order, this`log, this`inbound, this`wasInTree
      ensures old(log) <= log
      ensures View().Valid() && View().Signalled() && inbound == root
      ensures treeState == View().Classified() && OnlyOffers(log) && Refused(View())
      ensures interfaces.Keys == (set i | i in vifs) + (if root.Some? then {root.value} else {})
    {
      FirstCheckTreeState(root);
      CreateAll(vifs, root, joined);
      ClassifiedAtFirst(View());
      EvaluateNew();
    }

    method CreateAll(vifs: seq<Vif>, root: Option<Vif>, joined: set<Vif>)
      requires Distinct(vifs) && inbound.None? && interfaces == map[] && order == [] && log == []
      modifies this`interfaces, this`order, this`log, this`inbound, this`wasInTree
      ensures old(log) <= log
      ensures View().Consistent() && View().Known() && View().Priced() && wasInTree == View().InTree() && View().Signalled()
      ensures OnlyOffers(log) && inbound == root && Refused(View())
      ensures interfaces.Keys == (set i | i in vifs) + (if root.Some? then {root.value} else {})
    {
      EmptyGrows(View());
      CreateNonRoots(vifs, root, joined);
      CreateFirstRoot(root, joined);
    }

    method EvaluateNew()
      requires View().Consistent() && View().Known() && View().Priced() && View().Signalled()
      requires treeState == View().Classified() && wasInTree == View().InTree()
      modifies this`wasInTree, this`log
      ensures View().Valid() && View().Signalled() && treeState == View().Classified() && log == old(log)
      ensures Refused(View()) <==> Refused(old(View()))
    {
      Reevaluate();
    }

    method FirstCheckTreeState(root: Option<Vif>)
      modifies this`treeState
      ensures treeState == Classify(root, true, upstreamState, rpc)
    {
      var best := if root.Some? then GetOr(upstreamState, root.value, None) else None;
      var any := SomebodyIsUpstream();
      if root.Some? && best.Some? && (!rpc.IsBetterThan(best.value.claim.metric) && rpc != best.value.claim.metric) {
        treeState := Active;
      } else if any {
        treeState := Unsure;
      } else {
        treeState := Inactive;
      }
    }

    method CreateNonRoots(vifs: seq<Vif>, root: Option<Vif>, joined: set<Vif>)
      requires Distinct(vifs) && Growing(View()) && interfaces == map[] && OnlyOffers(log)
      modifies this`interfaces, this`order, this`log
      ensures StaysRefused()
      ensures old(log) <= log
      ensures Growing(View()) && OnlyOffers(log)
      ensures interfaces.Keys == (set i | i in vifs) - (if root.Some? then {root.value} else {})
    {
      for k := 0 to |vifs|
        invariant Growing(View()) && OnlyOffers(log) && old(log) <= log && StaysRefused()
        invariant interfaces.Keys == (set i | i in vifs[..k]) - (if root.Some? then {root.value} else {})
      {
        var i := vifs[k];
        assert vifs[..k + 1] == vifs[..k] + [i];
        if Some(i) != root {
          assert i !in vifs[..k];
          AppendNonRoot(i, i in joined);
        }
      }
    }

    method AppendNonRoot(i: Vif, members: bool)
      requires Growing(View()) && i !in interfaces && OnlyOffers(log)
      modifies this`interfaces, this`order, this`log
      ensures StaysRefused()
      ensures old(log) <= log
      ensures Growing(View()) && interfaces.Keys == old(interfaces.Keys) + {i} && OnlyOffers(log)
    {
      GrownIsConsistent(View(), i, members);
      if Refused(View()) {
        GrownIsRefused(View(), i, members);
      }
      CreateNonRoot(i, rpc, GetOr(upstreamState, i, None), GetOr(interestState, i, false), false, Inactive, treeState, members);
    }

    method CreateFirstRoot(root: Option<Vif>, joined: set<Vif>)
      requires Growing(View()) && (root.Some? ==> root.value !in interfaces) && OnlyOffers(log)
      modifies this`interfaces, this`order, this`log, this`inbound, this`wasInTree
      ensures StaysRefused()
      ensures old(log) <= log
      ensures OnlyOffers(log)
      ensures View().Consistent() && View().Known() && View().Priced() && wasInTree == View().InTree() && View().Signalled()
      ensures inbound == root && interfaces.Keys == old(interfaces.Keys) + (if root.Some? then {root.value} else {})
    {
      CompletedIsConsistent(View(), root, joined);
      if Refused(View()) {
        CompletedIsRefused(View(), root, joined, View().InTree());
      }
      Complete(root, joined);
    }

    method Complete(root: Option<Vif>, joined: set<Vif>)
      requires View().Shape() && inbound.None?
      modifies this`interfaces, this`order, this`log, this`inbound, this`wasInTree
      ensures old(log) <= log
      ensures View() == Completed(old(View()), root, joined, old(View()).InTree())
    {
      wasInTree := IsInTree();
      if root.Some? {
        CreateRoot(root.value, GetOr(upstreamState, root.value, None), false, Inactive, treeState, root.value in joined);
        inbound := root;
      }
    }

    // ----- What one interface does -----

    method Send(o: Out)
      modifies this`log
      ensures log == old(log) + [o]
    {
      log := log + [o];
    }

    method IsInTree() returns (b: bool)
      requires forall i :: i in order <==> i in interfaces
      ensures b == links.InTree(interfaces)
    {
      for k := 0 to |order|
        invariant forall n :: 0 <= n < k ==> !links.Forward(order[n], interfaces[order[n]])
      {
        if links.Forward(order[k], interfaces[order[k]]) { return true; }
      }
      return false;
    }

    /** Should the router's interest have changed, the best upstream neighbour is told. */
    method EvaluateInTreeChange()
      requires View().Shape() && Quiet()
      modifies this`wasInTree, this`log
      ensures old(log) <= log
      ensures View().GetSig() == old(View()).GetSig().Evaluate(View().Upstream().Some?, View().InTree())
      ensures SameAnnouncements(old(log)) && (wasInTree == old(wasInTree) ==> log == old(log))
    {
      var now := IsInTree();
      var before := wasInTree;
      wasInTree := now;
      if before != now && inbound.Some? {
        TellUpstream(now);
      }
    }

    /** node_is_in_tree, node_is_out_tree */
    method TellUpstream(now: bool)
      requires View().Shape() && Quiet() && inbound.Some?
      modifies this`log
      ensures old(log) <= log
      ensures View().Upstream().Some? ==> View().GetSig() == old(View()).GetSig().(last := Some(now))
      ensures View().Upstream().None? ==> log == old(log)
      ensures SameAnnouncements(old(log))
    {
      var x := interfaces[inbound.value];
      if x.best.Some? {
        SaidOne(log, Asked(inbound.value, x.best.value.claim.ip, now));
        Send(Asked(inbound.value, x.best.value.claim.ip, now));
      }
    }

    /** Nothing is announced on the root interface, and nothing was ever asked where something was. */
    ghost predicate Quiet()
      reads this
    {
      && SilentWhereAsking(log)
      && (inbound.Some? && inbound.value in interfaces ==> Announced(log, inbound.value) == None)
    }

    ghost predicate SameAnnouncements(before: seq<Out>)
      reads this
    {
      SilentWhereAsking(log) && (forall i :: Announced(log, i) == Announced(before, i)) && AskedAs(inbound, before, log)
    }

    twostate predicate StaysRefused()
      reads this
    {
      Refused(old(View())) ==> Refused(View())
    }

    /** Interface `i` became `x`; if its assert state changed, so may the router's interest have. */
    twostate predicate Became(i: Vif, x: TreeIf, flipped: bool)
      reads this
    {
      && View() == old(View()).(ifs := old(interfaces)[i := x], was := wasInTree, log := log)
      && View().GetSig() == if flipped then old(View()).GetSig().Evaluate(View().Upstream().Some?, View().InTree())
                            else old(View()).GetSig()
    }

    method SetAssertState(i: Vif, winner: bool)
      requires i in interfaces && interfaces[i].NonRoot? && View().Shape() && Quiet()
      modifies this`interfaces, this`wasInTree, this`log
      ensures old(log) <= log
      ensures var x := old(interfaces)[i];
              Became(i, if winner == x.winner then x else x.(winner := winner, onHold := !winner), winner != x.winner)
      ensures SameAnnouncements(old(log)) && View().Shape()
    {
      var x := interfaces[i];
      if winner != x.winner {
        interfaces := interfaces[i := x.(winner := winner, onHold := !winner)];
        assert View().GetSig() == old(View().GetSig());
        EvaluateInTreeChange();
      } else {
        assert interfaces == interfaces[i := x];
      }
    }

    method CalculateAssertWinner(i: Vif)
      requires i in interfaces && interfaces[i].NonRoot? && View().Shape() && Quiet()
      modifies this`interfaces, this`wasInTree, this`log
      ensures old(log) <= log
      ensures var x := old(interfaces)[i];
              Became(i, Elect(x, links.Address(i)), Elect(x, links.Address(i)).winner != x.winner)
      ensures SameAnnouncements(old(log)) && View().Shape()
    {
      var x := interfaces[i];
      if x.cur.Active? {
        if x.best.None? {
          SetAssertState(i, true);
        } else if AssertMetric(x.rpc, links.Address(i)).IsBetterThan(x.best.value.claim) {
          SetAssertState(i, true);
        } else {
          SetAssertState(i, false);
        }
      } else if x.cur.Unsure? {
        SetAssertState(i, x.best.None?);
      } else {
        SetAssertState(i, true);
      }
    }

    /** What a change must find, and what it leaves: the neighbours of `i` know its sync state. */
    ghost predicate Ready(i: Vif)
      reads this
    {
      && i in interfaces && View().Shape() && Quiet()
      && Announced(log, i) == Sync(interfaces[i], links.Connected(i))
    }

    /** Interface `i` was told of the change `ch`. */
    twostate predicate WasTold(i: Vif, ch: Change)
      requires i in old(interfaces)
      reads this
    {
      && Became(i, links.Change(i, old(interfaces)[i], ch), links.Flip(i, old(interfaces)[i], ch))
      && View().Shape() && i in interfaces && NeighborsHeard(i, old(interfaces)[i], ch, old(log))
    }

    /** The neighbours of `i` know its sync state, the best upstream one that it is renounced if it is,
        and nobody else heard anything. */
    ghost predicate NeighborsHeard(i: Vif, was: TreeIf, ch: Change, before: seq<Out>)
      requires i in interfaces
      reads this
    {
      && SilentWhereAsking(log) && ToldAs(inbound, i, was, ch, before, log)
      && forall k :: Announced(log, k) == if k == i then Sync(interfaces[i], links.Connected(i)) else Announced(before, k)
    }

    /** A non-root interface sends: nobody but its own neighbours hears it. */
    method SendFrom(i: Vif, o: Out)
      requires i in interfaces && interfaces[i].NonRoot? && View().Shape() && Quiet() && o.vif == i
      requires Asks(o) ==> Announced(log, i) == None
      modifies this`log
      ensures log == old(log) + [o] && View().GetSig() == old(View()).GetSig() && Quiet()
      ensures forall k :: Announced(log, k) == if k == i then Heard(o, i, Announced(old(log), i)) else Announced(old(log), k)
      ensures forall k: Vif, to: Ip :: LastInterest(log, k, to) ==
                if o == Interest(k, to) then Some(true) else if o == NoInterest(k, to) then Some(false)
                else LastInterest(old(log), k, to)
    {
      SaidOne(log, o);
      Send(o);
    }

    method Update(i: Vif, x: TreeIf)
      requires i in interfaces && interfaces[i].NonRoot? && x.NonRoot? && View().Shape()
      modifies this`interfaces
      ensures interfaces == old(interfaces)[i := x] && View().Shape() && View().GetSig() == old(View()).GetSig()
      ensures View().Upstream() == old(View()).Upstream()
    {
      interfaces := interfaces[i := x];
    }

    /** Takes over the fields of `x` and calculates the assert winner. */
    method Adopt(i: Vif, x: TreeIf)
      requires i in interfaces && interfaces[i].NonRoot? && View().Shape() && Quiet()
      requires x.NonRoot? && x.winner == interfaces[i].winner
      modifies this`interfaces, this`wasInTree, this`log
      ensures old(log) <= log
      ensures Became(i, Elect(x, links.Address(i)), Elect(x, links.Address(i)).winner != x.winner)
      ensures SameAnnouncements(old(log)) && View().Shape()
    {
      Update(i, x);
      CalculateAssertWinner(i);
    }

    method TreeTransitionToActive(i: Vif)
      requires Ready(i) && interfaces[i].NonRoot?
      modifies this`interfaces, this`wasInTree, this`log
      ensures old(log) <= log
      ensures WasTold(i, ToState(Active))
    {
      var x := interfaces[i];
      if !x.cur.Active? && !links.Connected(i) {
        Advertise(i);
      } else {
        Update(i, x);
      }
    }

    method Advertise(i: Vif)
      requires Ready(i) && interfaces[i].NonRoot? && !interfaces[i].cur.Active? && !links.Connected(i)
      modifies this`interfaces, this`wasInTree, this`log
      ensures old(log) <= log
      ensures WasTold(i, ToState(Active))
    {
      var x := interfaces[i];
      Adopt(i, x.(cur := Active));
      SendFrom(i, IamUpstream(i, x.rpc));
    }

    method TreeTransitionToUnsure(i: Vif)
      requires Ready(i) && interfaces[i].NonRoot?
      modifies this`interfaces, this`wasInTree, this`log
      ensures old(log) <= log
      ensures WasTold(i, ToState(Unsure))
    {
      SayUnsure(i);
      var x := interfaces[i];
      if !x.cur.Unsure? {
        Adopt(i, x.(cur := Unsure));
      } else {
        Update(i, x);
      }
    }

    method SayUnsure(i: Vif)
      requires Ready(i) && interfaces[i].NonRoot?
      modifies this`log
      ensures old(log) <= log
      ensures Quiet() && View().GetSig() == old(View()).GetSig()
      ensures forall k :: Announced(log, k) == if k == i then None else Announced(old(log), k)
      ensures ToldAs(inbound, i, interfaces[i], ToState(Unsure), old(log), log)
    {
      var x := interfaces[i];
      if x.cur.Active? && x.best.None? {
        SendFrom(i, IamNoLongerUpstream(i));
      } else if x.cur.Active? && x.best.Some? {
        WithdrawAndRenounce(i, x.best.value.claim.ip);
      } else if x.cur.Inactive? && x.best.Some? {
        SendFrom(i, NoInterest(i, x.best.value.claim.ip));
      }
    }

    method WithdrawAndRenounce(i: Vif, to: Ip)
      requires i in interfaces && interfaces[i].NonRoot? && View().Shape() && Quiet()
      modifies this`log
      ensures old(log) <= log && Quiet() && View().GetSig() == old(View()).GetSig()
      ensures forall k :: Announced(log, k) == if k == i then None else Announced(old(log), k)
      ensures forall k: Vif, n: Ip ::
                LastInterest(log, k, n) == if k == i && n == to then Some(false) else LastInterest(old(log), k, n)
    {
      SendFrom(i, IamNoLongerUpstream(i));
      SendFrom(i, NoInterest(i, to));
    }

    method TreeTransitionToInactive(i: Vif)
      requires Ready(i) && interfaces[i].NonRoot?
      modifies this`interfaces, this`wasInTree, this`log
      ensures old(log) <= log
      ensures WasTold(i, ToState(Inactive))
    {
      SayInactive(i);
      var x := interfaces[i];
      if !x.cur.Inactive? {
        Adopt(i, x.(cur := Inactive));
      } else {
        Update(i, x);
      }
    }

    method SayInactive(i: Vif)
      requires Ready(i) && interfaces[i].NonRoot?
      modifies this`log
      ensures old(log) <= log && Quiet() && View().GetSig() == old(View()).GetSig()
      ensures forall k :: Announced(log, k) == if k == i then None else Announced(old(log), k)
      ensures ToldAs(inbound, i, interfaces[i], ToState(Inactive), old(log), log)
    {
      if interfaces[i].cur.Active? {
        SendFrom(i, IamNoLongerUpstream(i));
      }
    }

    method NotifyRpcChange(i: Vif, newRpc: Metric)
      requires Ready(i) && interfaces[i].NonRoot?
      modifies this`interfaces, this`wasInTree, this`log
      ensures old(log) <= log
      ensures WasTold(i, ToRpc(newRpc))
    {
      var x := interfaces[i];
      if newRpc == x.rpc {
        Update(i, x);
      } else {
        AdvertiseRpc(i, newRpc);
        Adopt(i, x.(rpc := newRpc));
      }
    }

    method AdvertiseRpc(i: Vif, newRpc: Metric)
      requires Ready(i) && interfaces[i].NonRoot?
      modifies this`log
      ensures old(log) <= log && Quiet() && View().GetSig() == old(View()).GetSig()
      ensures forall k :: Announced(log, k) ==
                if k == i then Sync(interfaces[i].(rpc := newRpc), links.Connected(i)) else Announced(old(log), k)
      ensures AskedAs(inbound, old(log), log)
    {
      var x := interfaces[i];
      if x.cur.Active? && !links.Connected(i) {
        SendFrom(i, IamUpstream(i, newRpc));
      }
    }

    /** One interface is told of a change; a root interface only notes the state. */
    method Tell(i: Vif, ch: Change)
      requires Ready(i)
      modifies this`interfaces, this`wasInTree, this`log
      ensures old(log) <= log
      ensures WasTold(i, ch)
    {
      if interfaces[i].Root? {
        NoteChange(i, ch);
      } else {
        match ch {
          case ToState(s) =>
            match s {
              case Active => TreeTransitionToActive(i);
              case Unsure => TreeTransitionToUnsure(i);
              case Inactive => TreeTransitionToInactive(i);
            }
          case ToRpc(m) => NotifyRpcChange(i, m);
        }
      }
    }

    method NoteChange(i: Vif, ch: Change)
      requires Ready(i) && interfaces[i].Root?
      modifies this`interfaces
      ensures WasTold(i, ch)
    {
      var x := interfaces[i];
      if ch.ToState? {
        interfaces := interfaces[i := Root(x.best, ch.state, x.members)];
      } else {
        interfaces := interfaces[i := x];
      }
    }

    /** The neighbours on every link know what a snapshot would tell them. */
    ghost predicate Informed()
      reads this
    {
      && View().Shape() && SilentWhereAsking(log)
      && forall i :: i in interfaces ==> Announced(log, i) == Sync(interfaces[i], links.Connected(i))
    }

    /** Every interface, in the order of the dictionary, is told of a change. */
    method NotifyAll(ch: Change)
      requires Informed()
      modifies this`interfaces, this`wasInTree, this`log
      ensures StaysRefused() && (ch.ToRpc? ==> (Refused(old(View())) <==> Refused(View()))) && old(log) <= log
      ensures View() == old(View()).(ifs := interfaces, was := wasInTree, log := log)
      ensures View().AsWalk() == Walked(links, old(View()).AsWalk(), order, |order|, old(View()).Upstream().Some?, ch)
      ensures Informed() && forall i :: i !in interfaces ==> Announced(log, i) == Announced(old(log), i)
    {
      ghost var e := View();
      TellAll(ch, e, e.Upstream().Some?);
      AllStillRefused(e, View(), ch.ToRpc?);
    }

    method TellAll(ch: Change, ghost e: Entry, ghost asks: bool)
      requires Reached(e, 0, asks, ch)
      modifies this`interfaces, this`wasInTree, this`log
      ensures Reached(e, |order|, asks, ch) && old(log) <= log
    {
      for k := 0 to |order|
        invariant Reached(e, k, asks, ch) && old(log) <= log
      {
        TellNext(k, ch, e, asks);
      }
    }

    /** The first `k` interfaces have been told. */
    ghost predicate Reached(e: Entry, k: nat, asks: bool, ch: Change)
      reads this
    {
      HeardSoFar(e.log) && WalkedSoFar(e.AsWalk(), k, asks, ch) && StillRefused(e, View(), ch.ToRpc?)
    }

    ghost predicate HeardSoFar(before: seq<Out>)
      reads this
    {
      Informed() && forall i :: i !in interfaces ==> Announced(log, i) == Announced(before, i)
    }

    ghost predicate WalkedSoFar(w: Walk, k: nat, asks: bool, ch: Change)
      reads this
    {
      k <= |order| && View().Upstream().Some? == asks && View().AsWalk() == Walked(links, w, order, k, asks, ch)
    }

    method TellNext(k: nat, ch: Change, ghost e: Entry, ghost asks: bool)
      requires k < |order| && Reached(e, k, asks, ch)
      modifies this`interfaces, this`wasInTree, this`log
      ensures Reached(e, k + 1, asks, ch) && old(log) <= log
    {
      ghost var m := View();
      TellOne(order[k], ch);
      StillRefusedOnwards(e, m, View(), ch.ToRpc?);
    }

    method TellOne(i: Vif, ch: Change)
      requires Ready(i)
      modifies this`interfaces, this`wasInTree, this`log
      ensures old(log) <= log && WasTold(i, ch) && StillRefused(old(View()), View(), ch.ToRpc?)
    {
      ghost var e := View();
      Tell(i, ch);
      ToldKeepsRefused(e, View(), i, ch);
    }

    // ----- The state of the tree -----

    method SomebodyIsUpstream() returns (b: bool)
      ensures b == SomebodyUpstream(upstreamState)
    {
      var todo := upstreamState.Keys;
      while todo != {}
        invariant todo <= upstreamState.Keys
        invariant forall i :: i in upstreamState && i !in todo ==> upstreamState[i].None?
        decreases todo
      {
        var i :| i in todo;
        if upstreamState[i].Some? { return true; }
        todo := todo - {i};
      }
      return false;
    }

    method NotifyEverybody(ch: Change)
      requires View().Consistent()
      modifies this`interfaces, this`wasInTree, this`log
      ensures StaysRefused() && (ch.ToRpc? ==> (Refused(old(View())) <==> Refused(View())))
      ensures old(log) <= log
      ensures View().Consistent() && Follows(old(View()), View(), ch) && View().Upstream() == old(View()).Upstream()
      ensures View().AsWalk() == Walked(links, old(View()).AsWalk(), order, |order|, View().Upstream().Some?, ch)
    {
      ghost var e := View();
      NotifyAll(ch);
      WalkedIfs(links, e.AsWalk(), order, |order|, e.Upstream().Some?, ch);
      FollowsKeepsConsistent(e, View(), ch);
    }

    /** evaluate_in_tree_change between two changes of the interfaces. */
    method Reevaluate()
      requires View().Consistent()
      modifies this`wasInTree, this`log
      ensures Refused(View()) <==> Refused(old(View()))
      ensures old(log) <= log
      ensures View().Consistent() && View().Upstream() == old(View()).Upstream()
      ensures View().GetSig() == old(View()).GetSig().Evaluate(View().Upstream().Some?, View().InTree())
      ensures SameAnnouncements(old(log)) && (wasInTree == old(wasInTree) ==> log == old(log))
    {
      assert inbound.Some? ==> View().IfOk(inbound.value);
      ghost var e := View();
      EvaluateInTreeChange();
      SentKeepsRefused(e, View());
      assert forall i :: i in interfaces ==> old(View()).IfOk(i) ==> View().IfOk(i);
    }

    /** transition_to_active, transition_to_unsure, transition_to_inactive */
    method TransitionTo(s: TreeState)
      requires View().Consistent()
      modifies this`treeState, this`interfaces, this`wasInTree, this`log
      ensures StaysRefused()
      ensures old(log) <= log
      ensures View().Consistent() && treeState == s && View().Upstream() == old(View()).Upstream()
      ensures if old(treeState) == s then View() == old(View()) else Follows(old(View()), View(), ToState(s))
      ensures View().AsWalk() ==
                Transited(links, old(View()).AsWalk(), order, View().Upstream().Some?, old(treeState), s)
    {
      if treeState == s { return; }
      Transit(s);
      if !s.Inactive? {
        Reevaluate();
      }
    }

    method Transit(s: TreeState)
      requires View().Consistent() && treeState != s
      modifies this`treeState, this`interfaces, this`wasInTree, this`log
      ensures StaysRefused()
      ensures View().Consistent() && treeState == s && View().Upstream() == old(View()).Upstream() && old(log) <= log
      ensures Follows(old(View()), View(), ToState(s))
      ensures View().AsWalk() == Walked(links, old(View()).AsWalk(), order, |order|, View().Upstream().Some?, ToState(s))
    {
      SetTreeState(s);
      NotifyEverybody(ToState(s));
    }

    method SetTreeState(s: TreeState)
      requires View().Consistent()
      modifies this`treeState
      ensures Refused(View()) <==> Refused(old(View()))
      ensures treeState == s && View().Consistent()
      ensures View().AsWalk() == old(View()).AsWalk() && View().Upstream() == old(View()).Upstream()
    {
      ghost var e := View();
      treeState := s;
      SentKeepsRefused(e, View());
      assert forall i :: i in interfaces ==> old(View()).IfOk(i) ==> View().IfOk(i);
    }

    method CheckTreeState()
      requires View().Consistent()
      modifies this`treeState, this`interfaces, this`wasInTree, this`log
      ensures StaysRefused()
      ensures old(log) <= log
      ensures Checked(old(View()), View())
    {
      ghost var e := View();
      var s := FindTreeState();
      TransitionTo(s);
      assert View().ifs.Keys == e.ifs.Keys;
    }

    method FindTreeState() returns (s: TreeState)
      ensures s == View().Classified()
    {
      var best := if inbound.Some? then GetOr(upstreamState, inbound.value, None) else None;
      var any := SomebodyIsUpstream();
      if inbound.Some? && |interfaces| > 0 && best.Some? &&
         (!rpc.IsBetterThan(best.value.claim.metric) && rpc != best.value.claim.metric) {
        return Active;
      } else if |interfaces| > 0 && any {
        return Unsure;
      } else {
        return Inactive;
      }
    }

    // ----- Handlers -----

    /** A claim that is the very one already held is the same claim. */
    predicate SameClaim(i: Vif, best: Option<Best>)
      requires i in interfaces
      reads this
    {
      var held := interfaces[i].best;
      held.Some? && best.Some? && held.value.id == best.value.id ==> held == best
    }

    /** The best upstream neighbour of a link, or the interest of its routers, changed. */
    method CheckInterfaceState(i: Vif, best: Option<Best>, interested: bool)
      requires View().Valid() && (i in interfaces ==> SameClaim(i, best))
      modifies this`upstreamState, this`interestState, this`treeState, this`interfaces, this`wasInTree, this`log
      ensures StaysRefused()
      ensures old(log) <= log
      ensures View().Valid() && (old(View()).Signalled() ==> View().Signalled())
      ensures if i !in interfaces || old(treeState).Inactive? then View() == old(View())
              else upstreamState == old(upstreamState)[i := best] && interestState == old(interestState)[i := interested]
                   && SameMembers(old(interfaces))
    {
      if i !in interfaces || treeState.Inactive? { return; }
      TakeOver(i, best, interested);
      Recheck();
    }

    method TakeOver(i: Vif, best: Option<Best>, interested: bool)
      requires View().Valid() && i in interfaces && SameClaim(i, best) && !treeState.Inactive?
      modifies this`upstreamState, this`interestState, this`interfaces, this`wasInTree, this`log
      ensures StaysRefused() && old(log) <= log
      ensures View().Steady() && (old(View()).Signalled() ==> View().Signalled())
      ensures upstreamState == old(upstreamState)[i := best] && interestState == old(interestState)[i := interested]
      ensures SameMembers(old(interfaces))
    {
      ChangeBestUpstreamNeighborState(i, best);
      CheckInterestState(i, interested);
    }

    /** The interfaces are there as before, each with or without local members as before. */
    ghost predicate SameMembers(before: map<Vif, TreeIf>)
      reads this
    {
      interfaces.Keys == before.Keys && forall i :: i in interfaces ==> interfaces[i].members == before[i].members
    }

    method Recheck()
      requires View().NearlySteady()
      modifies this`treeState, this`interfaces, this`wasInTree, this`log
      ensures StaysRefused() && (old(treeState) == old(View()).Classified() ==> View() == old(View()))
      ensures old(log) <= log
      ensures View().Valid() && (old(View()).Signalled() ==> View().Signalled())
      ensures SameMembers(old(interfaces))
    {
      ghost var e := View();
      CheckTreeState();
      CheckedIsValid(e, View());
    }

    method ChangeBestUpstreamNeighborState(i: Vif, best: Option<Best>)
      requires View().Steady() && i in interfaces && SameClaim(i, best)
      modifies this`upstreamState, this`interfaces, this`wasInTree, this`log
      ensures StaysRefused()
      ensures old(log) <= log
      ensures View().Steady() && (old(View()).Signalled() ==> View().Signalled())
      ensures upstreamState == old(upstreamState)[i := best] && SameMembers(old(interfaces))
    {
      if interfaces[i].Root? {
        RootChangesBest(i, best);
      } else {
        ghost var e := View();
        var x := interfaces[i];
        NonRootChangesBest(i, best);
        var told := x.cur.Unsure? && best.Some? && (x.best.None? || x.best.value.id != best.value.id);
        if told {
          Renounce(i);
        }
        NewBestIsRefused(e, View(), i, told);
      }
    }

    method RootChangesBest(i: Vif, best: Option<Best>)
      requires View().Steady() && i in interfaces && interfaces[i].Root? && SameClaim(i, best)
      modifies this`upstreamState, this`interfaces, this`log
      ensures StaysRefused()
      ensures old(log) <= log
      ensures View().Steady() && (old(View()).Signalled() ==> View().Signalled())
      ensures upstreamState == old(upstreamState)[i := best] && SameMembers(old(interfaces))
    {
      var x := interfaces[i];
      RootTakesBest(i, best);
      if best.Some? && (x.best.None? || x.best.value.id != best.value.id) {
        var now := IsInTree();
        TellBest(now);
      }
    }

    method RootTakesBest(i: Vif, best: Option<Best>)
      requires View().Steady() && i in interfaces && interfaces[i].Root?
      modifies this`upstreamState, this`interfaces
      ensures StaysRefused()
      ensures View().Steady() && upstreamState == old(upstreamState)[i := best]
      ensures interfaces == old(interfaces)[i := Root(best, old(interfaces)[i].cur, old(interfaces)[i].members)]
    {
      ghost var e := View();
      assert e.IfOk(i);
      upstreamState := upstreamState[i := best];
      interfaces := interfaces[i := Root(best, interfaces[i].cur, interfaces[i].members)];
      SameForwarding(e, View(), i);
      OneInterfaceIsSteady(e, View(), i);
      OneKeepsRefused(e, View(), i);
    }

    /** interfaces_roles_dont_change_and_best_upstream_neighbor_reelected */
    method TellBest(now: bool)
      requires View().Steady() && View().Upstream().Some? && now == wasInTree
      modifies this`log
      ensures StaysRefused()
      ensures old(log) <= log
      ensures View().Steady() && View().Signalled()
    {
      ghost var e := View();
      assert e.IfOk(inbound.value);
      TellUpstream(now);
      OnlySentIsSteady(e, View());
      SentKeepsRefused(e, View());
    }

    method NonRootChangesBest(i: Vif, best: Option<Best>)
      requires View().Steady() && i in interfaces && interfaces[i].NonRoot?
      modifies this`upstreamState, this`interfaces, this`wasInTree, this`log
      ensures old(log) <= log
      ensures View().Steady() && (old(View()).Signalled() ==> View().Signalled())
      ensures interfaces[i].NonRoot? && interfaces[i].cur == old(interfaces)[i].cur && interfaces[i].best == best
      ensures upstreamState == old(upstreamState)[i := best] && SameMembers(old(interfaces))
      ensures interfaces == old(interfaces)[i := interfaces[i]] && AskedAs(inbound, old(log), log)
    {
      ghost var e := View();
      assert e.IfOk(i);
      TakeBest(i, best);
      ElectedIsSteady(e, View(), i);
    }

    method TakeBest(i: Vif, best: Option<Best>)
      requires i in interfaces && interfaces[i].NonRoot? && View().Shape() && Quiet()
      modifies this`upstreamState, this`interfaces, this`wasInTree, this`log
      ensures old(log) <= log
      ensures upstreamState == old(upstreamState)[i := best] && OnlyAt(old(View()), View(), i)
      ensures var x := old(interfaces)[i].(best := best);
              && interfaces[i] == Elect(x, links.Address(i))
              && View().GetSig() == if interfaces[i].winner != x.winner
                   then old(View()).GetSig().Evaluate(View().Upstream().Some?, View().InTree()) else old(View()).GetSig()
      ensures View().Upstream() == old(View()).Upstream() && SameAnnouncements(old(log))
    {
      upstreamState := upstreamState[i := best];
      Adopt(i, interfaces[i].(best := best));
    }

    /** tree_remains_unsure_and_best_upstream_router_reelected */
    method Renounce(i: Vif)
      requires View().Steady() && i in interfaces && interfaces[i].NonRoot?
      requires interfaces[i].cur.Unsure? && interfaces[i].best.Some?
      modifies this`log
      ensures old(log) <= log
      ensures View().Steady() && View().GetSig() == old(View()).GetSig()
      ensures forall j: Vif, to: Ip :: LastInterest(log, j, to) ==
                if j == i && to == interfaces[i].best.value.claim.ip then Some(false) else LastInterest(old(log), j, to)
    {
      ghost var e := View();
      assert e.IfOk(i);
      SendFrom(i, NoInterest(i, interfaces[i].best.value.claim.ip));
      OnlySentIsSteady(e, View());
    }

    /** The interest of the routers on a link changed; nobody's upstream state did. */
    method CheckInterestState(i: Vif, interested: bool)
      requires View().Steady()
      modifies this`interestState, this`interfaces, this`wasInTree, this`log
      ensures StaysRefused()
      ensures old(log) <= log
      ensures View().Steady() && (old(View()).Valid() ==> View().Valid()) && (old(View()).Signalled() ==> View().Signalled())
      ensures if i !in interfaces || treeState.Inactive? then View() == old(View())
              else interestState == old(interestState)[i := interested] && SameMembers(old(interfaces))
    {
      if i !in interfaces || treeState.Inactive? { return; }
      StoreInterest(i, interested);
    }

    method StoreInterest(i: Vif, interested: bool)
      requires View().Steady() && i in interfaces
      modifies this`interestState, this`interfaces, this`wasInTree, this`log
      ensures StaysRefused()
      ensures old(log) <= log
      ensures View().Steady() && (old(View()).Signalled() ==> View().Signalled())
      ensures interestState == old(interestState)[i := interested] && SameMembers(old(interfaces))
    {
      ghost var e := View();
      assert e.IfOk(i);
      TakeInterest(i, interested);
      InterestIsSteady(e, View(), i);
      OneKeepsRefused(e, View(), i);
    }

    method TakeInterest(i: Vif, interested: bool)
      requires i in interfaces && View().Shape() && Quiet()
      requires interfaces[i].NonRoot? ==> interfaces[i].interested == GetOr(interestState, i, false)
      modifies this`interestState, this`interfaces, this`wasInTree, this`log
      ensures old(log) <= log
      ensures interestState == old(interestState)[i := interested] && OnlyAt(old(View()), View(), i)
      ensures var x := old(interfaces)[i];
              && interfaces[i] == (if x.Root? then x else x.(interested := interested))
              && View().GetSig() == if interfaces[i] != x
                   then old(View()).GetSig().Evaluate(View().Upstream().Some?, View().InTree()) else old(View()).GetSig()
      ensures View().Upstream() == old(View()).Upstream() && SameAnnouncements(old(log))
    {
      var current := Get(interestState, i);
      interestState := interestState[i := interested];
      if current != Some(interested) && interfaces[i].NonRoot? {
        SetDownstreamNodeInterestState(i, interested);
      } else {
        assert interfaces == interfaces[i := interfaces[i]];
      }
    }

    method SetDownstreamNodeInterestState(i: Vif, interested: bool)
      requires i in interfaces && interfaces[i].NonRoot? && View().Shape() && Quiet()
      modifies this`interfaces, this`wasInTree, this`log
      ensures old(log) <= log
      ensures Became(i, old(interfaces)[i].(interested := interested), old(interfaces)[i].interested != interested)
      ensures SameAnnouncements(old(log)) && View().Shape()
    {
      if interfaces[i].interested != interested {
        Update(i, interfaces[i].(interested := interested));
        EvaluateInTreeChange();
      } else {
        assert interfaces == interfaces[i := interfaces[i].(interested := interested)];
      }
    }

    /** IGMP or MLD noticed local members, or that there are none any more. */
    method NotifyMembership(i: Vif, members: bool)
      requires View().Valid() && i in interfaces
      modifies this`interfaces, this`wasInTree, this`log
      ensures StaysRefused()
      ensures old(log) <= log
      ensures View().Valid() && (old(View()).Signalled() ==> View().Signalled())
      ensures interfaces == old(interfaces)[i := WithMembers(old(interfaces)[i], members)]
    {
      ghost var e := View();
      assert e.IfOk(i);
      SetMembers(i, members);
      ReevaluatedIsSteady(e, View(), i);
      OneKeepsRefused(e, View(), i);
    }

    function WithMembers(x: TreeIf, members: bool): TreeIf {
      match x
      case Root(best, cur, _) => Root(best, cur, members)
      case NonRoot(best, cur, _, interested, winner, onHold, rpc) => NonRoot(best, cur, members, interested, winner, onHold, rpc)
    }

    method SetMembers(i: Vif, members: bool)
      requires i in interfaces && View().Shape() && Quiet()
      modifies this`interfaces, this`wasInTree, this`log
      ensures old(log) <= log
      ensures Became(i, WithMembers(old(interfaces)[i], members), old(interfaces)[i].members != members)
      ensures SameAnnouncements(old(log)) && View().Shape() && View().Upstream() == old(View()).Upstream()
    {
      var x := interfaces[i];
      interfaces := interfaces[i := WithMembers(x, members)];
      if x.members != members {
        EvaluateInTreeChange();
      }
    }

    /** The time for which a router that lost the assert goes on forwarding is over. */
    method HoldForwardingStateTimeout(i: Vif)
      requires View().Valid() && i in interfaces && interfaces[i].NonRoot? && interfaces[i].onHold
      modifies this`interfaces, this`wasInTree, this`log
      ensures StaysRefused()
      ensures old(log) <= log
      ensures View().Valid() && (old(View()).Signalled() ==> View().Signalled())
      ensures interfaces == old(interfaces)[i := old(interfaces)[i].(onHold := false)]
    {
      ghost var e := View();
      assert e.IfOk(i);
      EndHold(i);
      ReevaluatedIsSteady(e, View(), i);
    }

    method EndHold(i: Vif)
      requires i in interfaces && interfaces[i].NonRoot? && View().Shape() && Quiet()
      modifies this`interfaces, this`wasInTree, this`log
      ensures old(log) <= log
      ensures Became(i, old(interfaces)[i].(onHold := false), true)
      ensures SameAnnouncements(old(log)) && View().Shape() && View().Upstream() == old(View()).Upstream() && StaysRefused()
    {
      ghost var e := View();
      Update(i, interfaces[i].(onHold := false));
      EvaluateInTreeChange();
      OneKeepsRefused(e, View(), i);
    }

    /** What was told, or not, while interfaces were changed, is now evaluated and checked. */
    method EvaluateAndCheck()
      requires View().Consistent() && View().NearlyKnown() && View().Priced()
      modifies this`treeState, this`interfaces, this`wasInTree, this`log
      ensures StaysRefused()
      ensures old(treeState) == old(View()).Classified() ==> (Refused(View()) <==> Refused(old(View())))
      ensures old(log) <= log
      ensures View().Valid() && (old(View()).Signalled() ==> View().Signalled())
      ensures SameMembers(old(interfaces))
    {
      Reevaluate();
      Recheck();
    }

    method RemoveInterface(i: Vif)
      requires View().Valid()
      modifies this
      ensures StaysRefused()
      ensures old(log) <= log
      ensures View().Valid() && (old(View()).Signalled() ==> View().Signalled())
      ensures rpc == old(rpc)
      ensures i in old(interfaces) ==>
                && inbound == Removed(old(View()), i).inbound
                && upstreamState == old(upstreamState) - {i} && interestState == old(interestState) - {i}
                && SameMembers(old(interfaces) - {i})
      ensures i !in old(interfaces) ==> View() == old(View())
    {
      if i !in interfaces { return; }
      ghost var e := View();
      TakeOut(i);
      RemovedIsConsistent(e, i);
      RemovedKeepsRefused(e, i);
      EvaluateAndCheck();
    }

    method TakeOut(i: Vif)
      requires i in interfaces
      modifies this
      ensures old(log) <= log
      ensures View() == Removed(old(View()), i)
    {
      if inbound == Some(i) {
        inbound := None;
      }
      upstreamState := upstreamState - {i};
      interestState := interestState - {i};
      interfaces := interfaces - {i};
      order := Without(order, i);
      Send(Closed(i));
    }

    // ----- The end of an entry -----

    /** The entry is removed. Nobody is told: what it announced stays announced. */
    method DeleteState()
      modifies this`interfaces, this`order
      ensures interfaces == map[] && order == [] && log == old(log)
    {
      interfaces := map[];
      order := [];
    }

    // ----- Interfaces that change their role -----

    method SendAll(said: seq<Out>)
      modifies this`log
      ensures log == old(log) + said
    {
      for k := 0 to |said|
        invariant log == old(log) + said[..k]
      {
        Send(said[k]);
        assert said[..k + 1] == said[..k] + [said[k]];
      }
    }

    method Put(i: Vif, x: TreeIf)
      requires forall k :: k in order <==> k in interfaces
      modifies this`interfaces, this`order
      ensures interfaces == old(interfaces)[i := x] && order == Appended(old(order), i)
    {
      if i !in interfaces {
        order := order + [i];
      }
      interfaces := interfaces[i := x];
    }

    method CreateNonRoot(i: Vif, newRpc: Metric, best: Option<Best>, interested: bool, wasRoot: bool,
                         prev: TreeState, cur: TreeState, members: bool)
      requires forall k :: k in order <==> k in interfaces
      modifies this`interfaces, this`order, this`log
      ensures old(log) <= log
      ensures View() == AddNonRoot(old(View()), i, newRpc, best, interested, wasRoot, prev, cur, members)
    {
      var x := NewNonRoot(links, i, newRpc, best, interested, members, cur);
      SendAll(NonRootGreets(i, links.Connected(i), newRpc, best, wasRoot, prev, cur));
      Put(i, x);
    }

    method CreateRoot(i: Vif, best: Option<Best>, wasNonRoot: bool, prev: TreeState, cur: TreeState, members: bool)
      requires forall k :: k in order <==> k in interfaces
      requires wasNonRoot && !prev.Inactive? && cur.Active? ==> best.Some?
      modifies this`interfaces, this`order, this`log
      ensures old(log) <= log
      ensures View() == AddRoot(old(View()), i, best, wasNonRoot, prev, cur, members, old(View()).InTree())
    {
      var inTree := IsInTree();
      SendAll(RootGreets(i, best, wasNonRoot, prev, cur, inTree));
      Put(i, Root(best, cur, members));
    }

    method DeleteInterface(i: Option<Vif>)
      modifies this`interfaces
      ensures View() == Cleared(old(View()), i)
    {
      if i.Some? && i.value in interfaces && interfaces[i.value].NonRoot? {
        interfaces := interfaces[i.value := interfaces[i.value].(onHold := false)];
      }
    }

    method SwapInterfaces(route: Route, joined: set<Vif>)
      requires View().Shape() && route.inbound != inbound
      modifies this`interfaces, this`order, this`log, this`inbound, this`rpc
      ensures old(log) <= log
      ensures var cur := Provisional(old(treeState), BestAt(old(View()), route.inbound), route.rpc);
              && (!old(treeState).Inactive? && cur.Active? ==> BestAt(old(View()), route.inbound).Some?)
              && View() == SwappedTo(old(View()), route.inbound, route.rpc, cur, joined)
    {
      var nonRootInterested := if inbound.Some? then GetOr(interestState, inbound.value, false) else false;
      var nonRootBest := if inbound.Some? then GetOr(upstreamState, inbound.value, None) else None;
      var rootBest := if route.inbound.Some? then GetOr(upstreamState, route.inbound.value, None) else None;
      ProvisionalNeedsBest(treeState, rootBest, route.rpc);
      DeleteInterface(route.inbound);
      var newTreeState := Provisional(treeState, rootBest, route.rpc);
      if inbound.Some? {
        CreateNonRoot(inbound.value, route.rpc, nonRootBest, nonRootInterested, true, treeState, newTreeState,
                      inbound.value in joined);
      }
      if route.inbound.Some? {
        CreateRoot(route.inbound.value, rootBest, true, treeState, newTreeState, route.inbound.value in joined);
      }
      inbound := route.inbound;
      rpc := route.rpc;
    }

    /** Every interface learns the route metric, once the tree's state was checked under it. */
    method CheckAndNotify(changed: bool)
      requires View().Consistent() && View().NearlyKnown() && (!changed ==> View().Priced())
      modifies this`treeState, this`interfaces, this`wasInTree, this`log
      ensures StaysRefused()
      ensures old(treeState) == old(View()).Classified() ==> (Refused(View()) <==> Refused(old(View())))
      ensures old(log) <= log
      ensures View().Consistent() && View().Known() && View().Priced() && treeState == View().Classified()
      ensures treeState == old(View()).Classified() && View().Upstream() == old(View()).Upstream()
      ensures SameMembers(old(interfaces))
      ensures View().AsWalk() ==
                Walked(links, Transited(links, old(View()).AsWalk(), order, View().Upstream().Some?, old(treeState), treeState),
                       order, |order|, View().Upstream().Some?, ToRpc(rpc))
    {
      ghost var e := View();
      CheckTreeState();
      ghost var c := View();
      CheckedIsKnown(e, c);
      if changed {
        NotifyEverybody(ToRpc(rpc));
        RepricedIsKnown(c, View());
      } else {
        CheckedIsPriced(e, c);
        IdleWalk(links, c.AsWalk(), order, |order|, c.Upstream().Some?, rpc);
      }
    }

    method FinishUpdate(changed: bool)
      requires View().Consistent() && View().NearlyKnown() && (!changed ==> View().Priced())
      modifies this`treeState, this`interfaces, this`wasInTree, this`log
      ensures StaysRefused()
      ensures old(treeState) == old(View()).Classified() ==> (Refused(View()) <==> Refused(old(View())))
      ensures old(log) <= log
      ensures View().Valid() && View().Upstream() == old(View()).Upstream()
      ensures treeState == View().Classified() && interfaces.Keys == old(interfaces).Keys
      ensures View().AsWalk() == Finished(links, old(View()).AsWalk(), order, View().Upstream().Some?, old(treeState),
                                          old(View()).Classified(), rpc)
    {
      CheckAndNotify(changed);
      Reevaluate();
    }

    method ChangeRoles(route: Route, joined: set<Vif>)
      requires View().Valid() && route.inbound != inbound
      modifies this`interfaces, this`order, this`log, this`inbound, this`rpc
      ensures Unrefused(old(View()), NextState(old(View()), route)) ==> treeState == View().Classified()
      ensures Refused(old(View())) ==> (Refused(View()) <==> !Unrefused(old(View()), NextState(old(View()), route)))
      ensures old(log) <= log
      ensures var cur := Provisional(old(treeState), BestAt(old(View()), route.inbound), route.rpc);
              && (!old(treeState).Inactive? && cur.Active? ==> BestAt(old(View()), route.inbound).Some?)
              && View() == SwappedTo(old(View()), route.inbound, route.rpc, cur, joined)
      ensures View().Consistent() && View().NearlyKnown() && (route.rpc == old(rpc) ==> View().Priced())
      ensures inbound == route.inbound && rpc == route.rpc && old(interfaces).Keys <= interfaces.Keys
    {
      ghost var e := View();
      SwapInterfaces(route, joined);
      SwapStable(e, route, joined, View());
      if Refused(e) {
        SwapRefused(e, route.inbound, route.rpc, NextState(e, route), joined);
      }
      SwapFacts(e, route, joined, Provisional(e.state, BestAt(e, route.inbound), route.rpc), View());
    }

    /** The route to the source moved to another interface: the two interfaces change roles. */
    method MoveRoute(route: Route, joined: set<Vif>)
      requires View().Valid() && route.inbound != inbound
      modifies this`interfaces, this`order, this`log, this`inbound, this`rpc, this`treeState, this`wasInTree
      ensures Refused(old(View())) ==> (Refused(View()) <==> !Unrefused(old(View()), NextState(old(View()), route)))
      ensures old(log) <= log
      ensures View().Valid() && inbound == route.inbound && rpc == route.rpc
      ensures treeState == View().Classified() && old(interfaces).Keys <= interfaces.Keys
      ensures RightUnlessOverlooked(old(View()), route, joined, View())
    {
      ghost var e := View();
      var changed := rpc != route.rpc;
      ChangeRoles(route, joined);
      ghost var m, cur := View(), Provisional(e.state, BestAt(e, route.inbound), route.rpc);
      FinishUpdate(changed);
      SwapTold(e, route, joined, cur, m, View());
    }

    /** Only a route through another interface or with another metric is acted on. */
    static predicate Moves(e: Entry, route: Route) {
      route.inbound != e.inbound || route.rpc != e.rpc
    }

    /** The route to the source changed. Whoever the best upstream neighbour is then knows whether
        the router is interested, but for the cases of Overlooked, and exactly those. In an Unsure tree
        the best upstream neighbours of all other links are refused, but for that of Unrefused. */
    method NetworkUpdate(route: Route, joined: set<Vif>)
      requires View().Valid()
      modifies this
      ensures old(log) <= log
      ensures View().Valid()
      ensures Refused(old(View())) ==>
                (Refused(View()) <==>
                   route.direct || route.inbound == old(inbound) || !Unrefused(old(View()), NextState(old(View()), route)))
      ensures route.direct ==> treeState == Inactive
      ensures if route.direct then inbound == old(inbound) && rpc == old(rpc)
              else inbound == route.inbound && rpc == route.rpc && (Moves(old(View()), route) ==> treeState == View().Classified())
      ensures interestState == old(interestState) && upstreamState == old(upstreamState)
      ensures old(interfaces).Keys <= interfaces.Keys
      ensures if route.direct || route.inbound == old(inbound) then old(View()).Signalled() ==> View().Signalled()
              else View().Signalled() <==> !Overlooked(old(View()), route, joined)
    {
      if route.direct {
        Deactivate();
      } else if route.inbound != inbound {
        MoveRoute(route, joined);
      } else if rpc != route.rpc {
        ChangeRpc(route.rpc);
      }
    }

    method Deactivate()
      requires View().Valid()
      modifies this`treeState, this`interfaces, this`wasInTree, this`log
      ensures StaysRefused()
      ensures old(log) <= log
      ensures View().Valid() && treeState == Inactive && (old(View()).Signalled() ==> View().Signalled())
      ensures interfaces.Keys == old(interfaces).Keys
    {
      ghost var e := View();
      TransitionTo(Inactive);
      InactivatedIsValid(e, View());
    }

    method ChangeRpc(newRpc: Metric)
      requires View().Valid()
      modifies this`rpc, this`treeState, this`interfaces, this`wasInTree, this`log
      ensures StaysRefused()
      ensures old(log) <= log
      ensures View().Valid() && rpc == newRpc && (old(View()).Signalled() ==> View().Signalled())
      ensures treeState == View().Classified() && interfaces.Keys == old(interfaces).Keys
    {
      ghost var e := View();
      SetRpc(newRpc);
      ghost var m := View();
      CheckAndNotify(true);
      RepricedIsValid(m, View());
    }

    method SetRpc(newRpc: Metric)
      requires View().Valid()
      modifies this`rpc
      ensures Refused(View()) <==> Refused(old(View()))
      ensures View() == old(View()).(rpc := newRpc)
      ensures View().Consistent() && View().NearlyKnown() && wasInTree == View().InTree()
      ensures View().Signalled() <==> old(View()).Signalled()
    {
      ghost var e := View();
      rpc := newRpc;
      SentKeepsRefused(e, View());
      assert forall i :: i in interfaces ==> old(View()).IfOk(i) ==> View().IfOk(i);
    }

    /** HPIM is enabled on a link, which may be the way to the source. */
    method NewInterface(i: Vif, routeInbound: Option<Vif>, joined: set<Vif>)
      requires View().Valid()
      modifies this
      ensures Refused(old(View())) ==>
                (Refused(View()) <==>
                   !(routeInbound == Some(i) && i !in old(interfaces) && Unrefused(old(View()), old(treeState))))
      ensures old(log) <= log
      ensures View().Valid() && (old(View()).Signalled() ==> View().Signalled())
      ensures i in old(interfaces) ==> View() == old(View())
      ensures i !in old(interfaces) ==>
                && interfaces.Keys == old(interfaces.Keys) + {i} && rpc == old(rpc)
                && upstreamState == old(upstreamState)[i := None] && interestState == old(interestState)[i := false]
                && inbound == if routeInbound == Some(i) then routeInbound else old(inbound)
    {
      if i in interfaces { return; }
      Open(i, routeInbound, joined);
      EvaluateAndCheck();
    }

    method Open(i: Vif, routeInbound: Option<Vif>, joined: set<Vif>)
      requires View().Valid() && i !in interfaces
      modifies this`interestState, this`upstreamState, this`interfaces, this`order, this`log, this`inbound
      ensures Refused(old(View())) ==> (Refused(View()) <==> !(routeInbound == Some(i) && Unrefused(old(View()), treeState)))
      ensures routeInbound == Some(i) && Unrefused(old(View()), treeState) ==> treeState == View().Classified()
      ensures old(log) <= log
      ensures View().Consistent() && View().NearlyKnown() && View().Priced() && (old(View()).Signalled() ==> View().Signalled())
      ensures upstreamState == old(upstreamState)[i := None] && interestState == old(interestState)[i := false]
      ensures interfaces.Keys == old(interfaces.Keys) + {i}
      ensures inbound == if routeInbound == Some(i) then routeInbound else old(inbound)
    {
      if routeInbound != Some(i) {
        OpenNonRoot(i, i in joined);
      } else if inbound.None? {
        OpenRoot(i, i in joined);
      } else {
        OpenAndSwap(i, joined);
      }
    }

    method OpenNonRoot(i: Vif, members: bool)
      requires View().Valid() && i !in interfaces
      modifies this`interestState, this`upstreamState, this`interfaces, this`order, this`log
      ensures StaysRefused()
      ensures old(log) <= log
      ensures View().Consistent() && View().NearlyKnown() && View().Priced() && (old(View()).Signalled() ==> View().Signalled())
      ensures upstreamState == old(upstreamState)[i := None] && interestState == old(interestState)[i := false]
      ensures interfaces.Keys == old(interfaces.Keys) + {i}
    {
      ghost var e := View();
      AppearNonRoot(i, members);
      OpeningIsConsistent(e, i, NewNonRoot(links, i, rpc, None, false, members, treeState), e.inbound);
      OpeningKeepsRefused(e, i, NewNonRoot(links, i, rpc, None, false, members, treeState), e.inbound);
      OpeningSig(e, i, NewNonRoot(links, i, rpc, None, false, members, treeState), e.inbound);
    }

    method AppearNonRoot(i: Vif, members: bool)
      requires View().Shape() && i !in interfaces
      modifies this`interestState, this`upstreamState, this`interfaces, this`order, this`log
      ensures old(log) <= log
      ensures View() == Opening(old(View()), i, NewNonRoot(links, i, rpc, None, false, members, treeState), inbound)
    {
      ghost var before := log;
      interestState := interestState[i := false];
      upstreamState := upstreamState[i := None];
      Send(Opened(i, if treeState.Active? && !links.Connected(i) then Some(rpc) else None));
      CreateNonRoot(i, rpc, None, false, false, treeState, treeState, members);
      assert log == before + [Opened(i, if treeState.Active? && !links.Connected(i) then Some(rpc) else None)];
    }

    method OpenRoot(i: Vif, members: bool)
      requires View().Valid() && i !in interfaces && inbound.None?
      modifies this`interestState, this`upstreamState, this`interfaces, this`order, this`log, this`inbound
      ensures StaysRefused()
      ensures old(log) <= log
      ensures View().Consistent() && View().NearlyKnown() && View().Priced() && (old(View()).Signalled() ==> View().Signalled())
      ensures upstreamState == old(upstreamState)[i := None] && interestState == old(interestState)[i := false]
      ensures interfaces.Keys == old(interfaces.Keys) + {i} && inbound == Some(i)
    {
      ghost var e := View();
      AppearRoot(i, members);
      OpeningIsConsistent(e, i, Root(None, treeState, members), inbound);
      OpeningKeepsRefused(e, i, Root(None, treeState, members), inbound);
      OpeningSig(e, i, Root(None, treeState, members), inbound);
    }

    method AppearRoot(i: Vif, members: bool)
      requires View().Shape() && i !in interfaces
      modifies this`interestState, this`upstreamState, this`interfaces, this`order, this`log, this`inbound
      ensures View() == Opening(old(View()), i, Root(None, treeState, members), Some(i))
    {
      ghost var before := log;
      interestState := interestState[i := false];
      upstreamState := upstreamState[i := None];
      inbound := Some(i);
      Send(Opened(i, None));
      CreateRoot(i, None, false, treeState, treeState, members);
      assert log == before + [Opened(i, None)];
    }

    method OpenAndSwap(i: Vif, joined: set<Vif>)
      requires View().Valid() && i !in interfaces && inbound.Some?
      modifies this`interestState, this`upstreamState, this`interfaces, this`order, this`log, this`inbound
      ensures Refused(old(View())) ==> (Refused(View()) <==> !Unrefused(old(View()), old(treeState)))
      ensures old(log) <= log
      ensures View().Consistent() && View().NearlyKnown() && View().Priced() && View().Signalled()
      ensures upstreamState == old(upstreamState)[i := None] && interestState == old(interestState)[i := false]
      ensures interfaces.Keys == old(interfaces.Keys) + {i} && inbound == Some(i)
    {
      ghost var e := View();
      AppearAndSwap(i, joined);
      OpeningRootIsConsistent(e, i, joined);
      if Refused(e) {
        OpeningRootRefused(e, i, joined);
      }
    }

    method AppearAndSwap(i: Vif, joined: set<Vif>)
      requires View().Shape() && i !in interfaces && inbound.Some?
      modifies this`interestState, this`upstreamState, this`interfaces, this`order, this`log, this`inbound
      ensures old(log) <= log
      ensures View() == OpeningRoot(old(View()), i, joined)
    {
      var r := inbound.value;
      interestState := interestState[i := false];
      upstreamState := upstreamState[i := None];
      Send(Opened(i, None));
      var newTreeState := ProvisionalOnOpening(treeState);
      CreateNonRoot(r, rpc, GetOr(upstreamState, r, None), GetOr(interestState, r, false), true, treeState, newTreeState,
                    r in joined);
      CreateRoot(i, None, true, treeState, newTreeState, i in joined);
      inbound := Some(i);
    }
  }
}
