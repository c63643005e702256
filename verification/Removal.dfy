/** A tree's entry is removed, which tells nobody, and may be made again at once: what the neighbours
    of the router make of it. */
module Removal {
  import opened Types
  import opened Metrics
  import opened TreeSpec
  import opened TreeEntry
  import opened KernelEntry
  import opened LinkTree

  ghost function Made(again: KernelEntryNonOriginator?): Option<Entry>
    reads again
  {
    if again == null then None else Some(again.View())
  }

  /** The entry goes, and if a synchronised neighbour still brings the tree, another takes its place
      that knows what the neighbours say. Afterwards the neighbours of a link hold what a snapshot
      would tell them exactly if the old entry was not announced there or the new one is. */
  method RemoveMulticastRoute(ghost k: Trees, ghost t: Tree, entry: KernelEntryNonOriginator, brought: bool,
                              links: Links, vifs: seq<Vif>, upstream: map<Vif, Option<Best>>, interest: map<Vif, bool>,
                              route: Route, joined: set<Vif>)
    returns (again: KernelEntryNonOriginator?, ghost after: Trees)
    requires k.Valid() && t in k.entries && k.entries[t] == entry.View()
    requires Distinct(vifs) && (forall i :: i in upstream ==> i in vifs) && (brought ==> !route.direct)
    modifies entry`interfaces, entry`order
    ensures entry.interfaces == map[] && entry.log == old(entry.log)
    ensures again != null <==> brought
    ensures again != null ==> fresh(again) && again.upstreamState == upstream && again.treeState == again.View().Classified()
    ensures Enabled(k, Remove(t, Made(again))) && after == Next(k, Remove(t, Made(again)))
    ensures forall i :: Announced(after.Said(t), i) == after.SyncState(t, i) <==>
                          Announced(k.Said(t), i).None? || after.SyncState(t, i).Some?
  {
    entry.DeleteState();
    again := null;
    if brought {
      again := new KernelEntryNonOriginator(links, vifs, upstream, interest, route, joined);
    }
    after := Next(k, Remove(t, Made(again)));
    forall i
      ensures Announced(after.Said(t), i) == after.SyncState(t, i) <==>
                Announced(k.Said(t), i).None? || after.SyncState(t, i).Some?
    {
      RemovalExactlyIf(k, t, Made(again), i);
    }
  }

  // ----- A tree that stays announced -----

  const NEAR_RPC := Metric(1, 10)
  const FAR_RPC := Metric(1, 11)

  const FIRST := Some(Best(AssertMetric(Metric(1, 1), 5), 0))

  /** As the entry stands with its route through interface 0, where it knows a neighbour at cost 1. */
  ghost predicate Stands(e: KernelEntryNonOriginator, rpc: Metric)
    reads e
  {
    && e.View().Valid() && e.inbound == Some(0) && e.rpc == rpc && {0, 1} <= e.interfaces.Keys
    && e.upstreamState == map[0 := FIRST, 1 := None] && e.links == Links(map[0 := 6, 1 := 7], {})
  }

  /** The router announces the tree on interface 1. */
  method Announcing() returns (e: KernelEntryNonOriginator)
    ensures fresh(e) && Stands(e, NEAR_RPC) && e.treeState.Active? && Announced(e.log, 1) == Some(NEAR_RPC)
  {
    e := new KernelEntryNonOriginator(Links(map[0 := 6, 1 := 7], {}), [0, 1], map[0 := FIRST, 1 := None],
                                      map[0 := false, 1 := false], Route(NEAR_RPC, false, Some(0)), {});
    assert 0 in [0, 1] && 1 in [0, 1];
    assert e.View().IfOk(1);
  }

  /** The source is directly connected for a while: the tree becomes Inactive and its removal is
      started. The neighbour takes its announcement back, which an Inactive entry ignores. */
  method FallAsleep(e: KernelEntryNonOriginator)
    requires Stands(e, NEAR_RPC)
    modifies e
    ensures Stands(e, NEAR_RPC) && e.treeState.Inactive?
  {
    e.NetworkUpdate(Route(NEAR_RPC, true, Some(0)), {});
    e.CheckInterfaceState(0, None, false);
  }

  /** The route comes back, a little longer: the entry revives with its old caches and announces the
      tree again. */
  method Revive(e: KernelEntryNonOriginator)
    requires Stands(e, NEAR_RPC)
    modifies e
    ensures Stands(e, FAR_RPC) && e.treeState.Active? && Announced(e.log, 1) == Some(FAR_RPC)
  {
    e.NetworkUpdate(Route(FAR_RPC, false, Some(0)), {});
    assert e.upstreamState[0] == FIRST;
    assert e.treeState.Active?;
    assert e.View().IfOk(1);
  }

  /** Then the removal gets its turn, and no neighbour brings the tree. The router has forgotten it
      and its snapshots omit it, but its neighbours on interface 1 keep it. */
  method RevivedAndRemoved(t: Tree) returns (e: KernelEntryNonOriginator, ghost after: Trees)
    ensures after == Trees(map[], map[t := e.log]) && after.Orphaned(t, 1)
    ensures after.Snapshot(1) == map[] && Announced(after.Said(t), 1) == Some(FAR_RPC)
  {
    e := Announcing();
    FallAsleep(e);
    Revive(e);
    ghost var k := Trees(map[t := e.View()], map[]);
    assert k.Said(t) == e.log;
    var again;
    again, after := RemoveMulticastRoute(k, t, e, false, e.links, [], map[], map[], Route(FAR_RPC, false, Some(0)), {});
    assert after.Said(t) == e.log;
  }
}
