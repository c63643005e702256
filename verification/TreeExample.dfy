/** Two network updates after which the best upstream neighbour is wrong about the router: one of a
    live tree and one that revives an Inactive tree. And one after which a neighbour on the former root
    link still believes that the router wants data from it. */
module TreeExample {
  import opened Types
  import opened Metrics
  import opened TreeSpec
  import opened TreeEntry
  import opened Refusal

  function Claim(cost: nat, ip: Ip): Option<Best> {
    Some(Best(AssertMetric(Metric(1, cost), ip), cost))
  }

  const OLD_RPC := Metric(1, 100)
  const NEW_RPC := Metric(1, 90)

  const LINKS := Links(map[1 := 11, 2 := 12, 3 := 13], {})

  /** The route goes through interface 1. Interface 2 has lost the assert and still forwards for a
      while; interface 3 has lost it to a neighbour at cost 95 and does not forward. Both have
      local members. */
  const BEFORE := Entry(
    LINKS, Active, map[], map[1 := Claim(50, 21), 2 := Claim(80, 22), 3 := Claim(95, 23)], OLD_RPC, Some(1),
    map[1 := Root(Claim(50, 21), Active, false),
        2 := NonRoot(Claim(80, 22), Active, true, false, false, true, OLD_RPC),
        3 := NonRoot(Claim(95, 23), Active, true, false, false, false, OLD_RPC)],
    [1, 2, 3], true, [IamUpstream(2, OLD_RPC), IamUpstream(3, OLD_RPC), Interest(1, 21)])

  /** The route moves to interface 2 and becomes cheaper than the winner on link 3. */
  const ROUTE := Route(NEW_RPC, false, Some(2))

  const JOINED: set<Vif> := {2, 3}

  lemma LogOfBefore()
    ensures SilentWhereAsking(BEFORE.log)
    ensures forall i :: Announced(BEFORE.log, i) == if i == 2 || i == 3 then Some(OLD_RPC) else None
    ensures LastInterest(BEFORE.log, 1, 21) == Some(true)
  {
    SaidOne([], IamUpstream(2, OLD_RPC));
    SaidOne([IamUpstream(2, OLD_RPC)], IamUpstream(3, OLD_RPC));
    SaidOne([IamUpstream(2, OLD_RPC), IamUpstream(3, OLD_RPC)], Interest(1, 21));
    assert [] + [IamUpstream(2, OLD_RPC)] == [IamUpstream(2, OLD_RPC)];
    assert [IamUpstream(2, OLD_RPC)] + [IamUpstream(3, OLD_RPC)] == [IamUpstream(2, OLD_RPC), IamUpstream(3, OLD_RPC)];
    assert BEFORE.log == [IamUpstream(2, OLD_RPC), IamUpstream(3, OLD_RPC)] + [Interest(1, 21)];
  }

  lemma BeforeIsValid()
    ensures BEFORE.Valid() && BEFORE.Signalled() && BEFORE.state.Active?
  {
    LogOfBefore();
    assert BEFORE.Shape();
    assert BEFORE.IfOk(1) && BEFORE.IfOk(2) && BEFORE.IfOk(3);
    assert LINKS.Forward(2, BEFORE.ifs[2]);
    assert BEFORE.InTree();
  }

  function Half(): Entry {
    HalfSwapped(BEFORE, Some(2), NEW_RPC, Active, JOINED)
  }

  lemma NobodyForwardsHalfway()
    ensures !Half().InTree() && Half().ifs.Keys == {1, 2, 3}
    ensures Half().ifs[1] == NonRoot(Claim(50, 21), Active, false, false, false, true, NEW_RPC)
    ensures Half().ifs[3] == BEFORE.ifs[3] && Half().order == [1, 2, 3] && Half().upstream == BEFORE.upstream
  {
    assert Half().ifs.Keys == {1, 2, 3};
    assert forall i :: i in Half().ifs ==> !LINKS.Forward(i, Half().ifs[i]);
  }

  lemma ThirdReturnsFirst(ifs: map<Vif, TreeIf>)
    requires ifs.Keys == {1, 2, 3} && ifs[1] == NonRoot(Claim(50, 21), Active, false, false, false, true, NEW_RPC)
    requires ifs[2].Root? && ifs[3] == BEFORE.ifs[3]
    ensures ReturnsFirst(LINKS, ifs, [1, 2, 3], ToRpc(NEW_RPC))
  {
    var order, ch := [1, 2, 3], ToRpc(NEW_RPC);
    assert FirstFlip(LINKS, ifs, order, 1, ch) == None;
    assert FirstFlip(LINKS, ifs, order, 2, ch) == None;
    assert FirstFlip(LINKS, ifs, order, 3, ch) == Some(3);
  }

  /** The entry is as any handler may find it, and its best upstream neighbour knows that the router
      is in the tree; after this update its new one believes that it is not. */
  lemma TheReturnIsOverlooked()
    ensures BEFORE.Valid() && BEFORE.Signalled() && !BEFORE.state.Inactive? && !ROUTE.direct
    ensures ROUTE.inbound != BEFORE.inbound && Overlooked(BEFORE, ROUTE, JOINED)
  {
    BeforeIsValid();
    NobodyForwardsHalfway();
    var m := SwappedTo(BEFORE, Some(2), NEW_RPC, Active, JOINED);
    assert m.ifs[2].Root? && m.order == [1, 2, 3];
    assert m.Classified() == Active;
    ThirdReturnsFirst(m.ifs);
    SwapBasics(BEFORE, ROUTE, JOINED, Active, m);
  }

  // ----- A tree that is revived -----

  /** The source was directly connected for a moment, so the tree is Inactive and waits for its
      removal; its caches still name neighbours. Interface 3 has an interested router. */
  const ASLEEP := Entry(
    LINKS, Inactive, map[3 := true], map[1 := Claim(50, 21), 2 := Claim(40, 22), 3 := None], OLD_RPC, Some(1),
    map[1 := Root(Claim(50, 21), Inactive, false),
        2 := NonRoot(Claim(40, 22), Inactive, false, false, true, false, OLD_RPC),
        3 := NonRoot(None, Inactive, false, true, true, false, OLD_RPC)],
    [1, 2, 3], true, [Interest(1, 21)])

  lemma AsleepIsValid()
    ensures ASLEEP.Valid() && ASLEEP.Signalled()
  {
    SaidOne([], Interest(1, 21));
    assert [] + [Interest(1, 21)] == [Interest(1, 21)];
    assert ASLEEP.Shape();
    assert ASLEEP.IfOk(1) && ASLEEP.IfOk(2) && ASLEEP.IfOk(3);
    assert LINKS.Forward(3, ASLEEP.ifs[3]);
    assert ASLEEP.InTree();
  }

  /** The route comes back through interface 2. Whatever state the tree then takes, the new best
      upstream neighbour is never told that the router is in the tree: it was before, it is now, and
      the swap of an Inactive tree's interfaces says nothing. */
  lemma TheRevivedIsSilent()
    ensures ASLEEP.Valid() && ASLEEP.Signalled() && ASLEEP.state.Inactive? && !ROUTE.direct
    ensures ROUTE.inbound != ASLEEP.inbound && Overlooked(ASLEEP, ROUTE, {})
    ensures SwappedTo(ASLEEP, ROUTE.inbound, ROUTE.rpc, Inactive, {}).Classified() == Active
  {
    AsleepIsValid();
    var m := SwappedTo(ASLEEP, Some(2), NEW_RPC, Inactive, {});
    SilentSwap(ASLEEP, ROUTE, {}, m);
    assert LINKS.Forward(3, m.ifs[3]);
    assert m.InTree();
    SwapBasics(ASLEEP, ROUTE, {}, Inactive, m);
    assert LastInterest(ASLEEP.log, 2, 22) == LastInterest([], 2, 22) by {
      SaidOne([], Interest(1, 21));
      assert [] + [Interest(1, 21)] == [Interest(1, 21)];
    }
  }
  // ----- A tree that stays Unsure -----

  /** The only upstream neighbour is farther from the source than the router, so the tree is Unsure.
      Interface 3 has local members, so this neighbour was told that the router is interested. */
  const WAVERING := Entry(
    LINKS, Unsure, map[], map[1 := Claim(150, 21)], OLD_RPC, Some(1),
    map[1 := Root(Claim(150, 21), Unsure, false),
        2 := NonRoot(None, Unsure, false, false, true, false, OLD_RPC),
        3 := NonRoot(None, Unsure, true, false, true, false, OLD_RPC)],
    [1, 2, 3], true, [Interest(1, 21)])

  lemma WaveringIsValid()
    ensures WAVERING.Valid() && WAVERING.Signalled() && Refused(WAVERING)
  {
    SaidOne([], Interest(1, 21));
    assert [] + [Interest(1, 21)] == [Interest(1, 21)];
    assert WAVERING.Shape();
    assert WAVERING.IfOk(1) && WAVERING.IfOk(2) && WAVERING.IfOk(3);
    assert LINKS.Forward(3, WAVERING.ifs[3]);
    assert WAVERING.InTree();
    assert WAVERING.upstream[1].Some?;
  }

  /** The route moves to interface 2. The neighbour on link 1 is the best upstream neighbour of a link
      that is no root link any more, and is not told that the router wants nothing from it. */
  lemma TheFormerRootIsNotRefused()
    ensures WAVERING.Valid() && WAVERING.Signalled() && Refused(WAVERING)
    ensures ROUTE.inbound != WAVERING.inbound && Unrefused(WAVERING, NextState(WAVERING, ROUTE))
    ensures !Refused(SwappedTo(WAVERING, ROUTE.inbound, ROUTE.rpc, NextState(WAVERING, ROUTE), JOINED))
  {
    WaveringIsValid();
    assert BestAt(WAVERING, Some(1)) == Claim(150, 21);
    UnrefusedExactlyIf(WAVERING, NextState(WAVERING, ROUTE));
    SwapRefused(WAVERING, ROUTE.inbound, ROUTE.rpc, NextState(WAVERING, ROUTE), JOINED);
  }
}
