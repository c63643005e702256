/** What holds over every run of an interface's reliable transmission: sequence discipline,
    the CheckpointSN it may announce, and the bound on retransmissions. */
module ReliableRuns {
  import opened Types
  import opened ReliableSpec

  datatype Event =
    | Announce(tree: Tree, kind: Kind, clock: nat)
    | Ask(tree: Tree, kind: Kind, dst: Ip, clock: nat)
    | Ack(tree: Tree, ip: Ip, stamp: Stamp)
    | Synchronize(ip: Ip, clock: nat)
    | Expire(tree: Tree)
    | Join(ip: Ip)
    | Leave(ip: Ip)
  {
    /** The events that take a new sequence number. */
    predicate Issues() {
      Announce? || Ask? || Synchronize?
    }
  }

  function Next(i: Iface, e: Event): Iface {
    match e
    case Announce(t, k, clock) => i.SendMulticast(t, k, clock)
    case Ask(t, k, dst, clock) => i.SendUnicast(t, k, dst, clock)
    case Ack(t, ip, stamp) => i.ReceiveAck(t, ip, stamp)
    case Synchronize(ip, clock) => var j := i.Tick(clock); j.StartSynchronization(ip, j.Now())
    case Expire(t) => i.Expire(t)
    case Join(ip) => i.(neighbors := i.neighbors + {ip})
    case Leave(ip) => i.(neighbors := i.neighbors - {ip})
  }

  /** The wall clock is past the old BootTime when the interface restarts. */
  predicate Enabled(i: Iface, e: Event) {
    e.Issues() ==> e.clock > i.bootTime
  }

  ghost predicate Run(s: seq<Iface>, es: seq<Event>) {
    && |s| == |es| + 1
    && s[0].sequencer == 0 && s[0].buffer == map[]
    && forall k :: 0 <= k < |es| ==> Enabled(s[k], es[k]) && s[k + 1] == Next(s[k], es[k])
  }

  // ----- Sequence discipline -----

  predicate Current(i: Iface, t: Tree, m: Msg) {
    m.tree == t && m.stamp.bootTime == i.bootTime && 1 <= m.stamp.sn <= i.sequencer
  }

  ghost predicate TreeInv(i: Iface, t: Tree, r: Rmt) {
    && (r.multicast.Some? ==> Current(i, t, r.multicast.value) && r.unicast.Keys <= r.acked)
    && (forall n :: n in r.unicast ==> Current(i, t, r.unicast[n]))
    && (r.multicast.Some? ==> forall n :: n in r.unicast ==> r.multicast.value.stamp.sn < r.unicast[n].stamp.sn)
    && (!r.Idle() ==> r.armed)
  }

  ghost predicate Inv(i: Iface) {
    && i.sequencer < MAX_SEQUENCE_NUMBER
    && forall t :: t in i.buffer ==> TreeInv(i, t, i.buffer[t])
  }

  lemma AckKeepsTreeInv(i: Iface, t: Tree, r: Rmt, ip: Ip, stamp: Stamp)
    requires TreeInv(i, t, r)
    ensures TreeInv(i, t, r.ReceiveAck(i.neighbors, ip, stamp))
  {
    var a := r.AckMulticast(i.neighbors, ip, stamp);
    assert TreeInv(i, t, a);
  }

  lemma TickKeepsInv(i: Iface, clock: nat)
    requires Inv(i)
    ensures Inv(i.Tick(clock))
  {
  }

  lemma AnnounceKeepsInv(i: Iface, t: Tree, k: Kind, clock: nat)
    requires Inv(i)
    ensures Inv(i.SendMulticast(t, k, clock))
  {
    var j := i.(buffer := i.buffer[t := IDLE]);
    TickKeepsInv(j, clock);
    var l := j.Tick(clock);
    assert TreeInv(l, t, IDLE.Multicast(Msg(l.Now(), t, k)));
  }

  lemma CancelKeepsTreeInv(i: Iface, t: Tree, r: Rmt, dst: Ip)
    requires TreeInv(i, t, r)
    ensures TreeInv(i, t, r.CancelUnicast(dst))
  {
  }

  /** A unicast stamped later than everything in flight for its tree may join it. */
  lemma UnicastKeepsTreeInv(i: Iface, t: Tree, r: Rmt, dst: Ip, m: Msg)
    requires TreeInv(i, t, r) && Current(i, t, m)
    requires r.multicast.Some? ==> r.multicast.value.stamp.sn < m.stamp.sn
    ensures TreeInv(i, t, r.Unicast(dst, m))
  {
  }

  lemma PutKeepsInv(i: Iface, t: Tree, r: Rmt)
    requires Inv(i) && TreeInv(i, t, r)
    ensures Inv(i.(buffer := i.buffer[t := r]))
  {
  }

  lemma AskKeepsInv(i: Iface, t: Tree, k: Kind, dst: Ip, clock: nat)
    requires Inv(i)
    ensures Inv(i.SendUnicast(t, k, dst, clock))
  {
    CancelKeepsTreeInv(i, t, i.Of(t), dst);
    var j := i.(buffer := i.buffer[t := i.Of(t).CancelUnicast(dst)]);
    PutKeepsInv(i, t, i.Of(t).CancelUnicast(dst));
    TickKeepsInv(j, clock);
    TickedIsOlder(j, t, clock);
    var l := j.Tick(clock);
    UnicastKeepsTreeInv(l, t, l.Of(t), dst, Msg(l.Now(), t, k));
    PutKeepsInv(l, t, l.Of(t).Unicast(dst, Msg(l.Now(), t, k)));
  }

  lemma TickedIsOlder(j: Iface, t: Tree, clock: nat)
    requires Inv(j) && t in j.buffer
    ensures var l := j.Tick(clock);
            && t in l.buffer && l.sequencer >= 1
            && (l.buffer[t].multicast.Some? ==> l.buffer[t].multicast.value.stamp.sn < l.sequencer)
  {
    assert TreeInv(j, t, j.buffer[t]);
  }

  lemma SynchronizeKeepsInv(i: Iface, ip: Ip, stamp: Stamp)
    requires Inv(i)
    ensures Inv(i.StartSynchronization(ip, stamp))
  {
    forall t | t in i.buffer ensures TreeInv(i, t, i.buffer[t].ReceiveAck(i.neighbors, ip, stamp)) {
      AckKeepsTreeInv(i, t, i.buffer[t], ip, stamp);
    }
  }

  lemma ExpireKeepsInv(i: Iface, t: Tree)
    requires Inv(i) && t in i.buffer
    ensures Inv(i.Expire(t))
  {
    var r := i.buffer[t].Expire(i.neighbors);
    assert TreeInv(i, t, r);
  }

  lemma NextKeepsInv(i: Iface, e: Event)
    requires Inv(i)
    ensures Inv(Next(i, e))
  {
    match e
    case Announce(t, k, clock) => AnnounceKeepsInv(i, t, k, clock);
    case Ask(t, k, dst, clock) => AskKeepsInv(i, t, k, dst, clock);
    case Ack(t, ip, stamp) =>
      if t in i.buffer { AckKeepsTreeInv(i, t, i.buffer[t], ip, stamp); }
    case Synchronize(ip, clock) =>
      TickKeepsInv(i, clock);
      SynchronizeKeepsInv(i.Tick(clock), ip, i.Tick(clock).Now());
    case Expire(t) => if t in i.buffer { ExpireKeepsInv(i, t); }
    case Join(ip) =>
    case Leave(ip) =>
  }

  /** Over every run: in-flight messages carry the current BootTime and a number already issued,
      every in-flight unicast is newer than the in-flight multicast of its tree, and whatever
      is in flight has its timer armed. */
  lemma {:induction false} RunKeepsInv(s: seq<Iface>, es: seq<Event>, k: nat)
    requires Run(s, es) && k <= |es|
    ensures Inv(s[k])
  {
    if k > 0 {
      RunKeepsInv(s, es, k - 1);
      NextKeepsInv(s[k - 1], es[k - 1]);
    }
  }

  lemma NextAdvances(i: Iface, e: Event)
    requires Enabled(i, e)
    ensures if e.Issues() then Before(i.Now(), Next(i, e).Now()) else Next(i, e).Now() == i.Now()
  {
  }

  /** The stamps issued by an interface are strictly increasing, also across a restart. */
  lemma {:induction false} IssuedStampsIncrease(s: seq<Iface>, es: seq<Event>, j: nat, k: nat)
    requires Run(s, es) && j < k < |es| && es[j].Issues() && es[k].Issues()
    ensures Before(s[j + 1].Now(), s[k + 1].Now())
  {
    NowNeverGoesBack(s, es, j + 1, k);
    NextAdvances(s[k], es[k]);
  }

  lemma {:induction false} NowNeverGoesBack(s: seq<Iface>, es: seq<Event>, j: nat, k: nat)
    requires Run(s, es) && j <= k <= |es|
    ensures AtMost(s[j].Now(), s[k].Now())
    decreases k - j
  {
    if j < k {
      NextAdvances(s[k - 1], es[k - 1]);
      NowNeverGoesBack(s, es, j, k - 1);
    }
  }

  // ----- CheckpointSN -----

  ghost predicate InFlight(i: Iface, m: Msg) {
    exists t :: t in i.buffer && Carries(i.buffer[t], m)
  }

  predicate Carries(r: Rmt, m: Msg) {
    r.multicast == Some(m) || m in r.unicast.Values
  }

  /** Everything up to `c` has been issued and is no longer in flight. */
  ghost predicate Settled(i: Iface, c: int) {
    c <= i.sequencer && forall m :: InFlight(i, m) ==> c < m.stamp.sn
  }

  ghost predicate IsCheckpoint(i: Iface, c: int) {
    Settled(i, c) && forall d :: Settled(i, d) ==> d <= c
  }

  /** A step within one BootTime adds only messages with a fresh number to what is in flight. */
  lemma StepKeepsSettled(i: Iface, e: Event, c: int)
    requires Inv(i) && Enabled(i, e) && Settled(i, c) && Next(i, e).bootTime == i.bootTime
    ensures Settled(Next(i, e), c)
  {
    var n := Next(i, e);
    forall m | InFlight(n, m) ensures c < m.stamp.sn {
      var t :| t in n.buffer && Carries(n.buffer[t], m);
      if !(t in i.buffer && Carries(i.buffer[t], m)) {
        FreshlyCarried(i, e, t, m);
      } else {
        assert InFlight(i, m);
      }
    }
  }

  lemma FreshlyCarried(i: Iface, e: Event, t: Tree, m: Msg)
    requires Enabled(i, e) && t in Next(i, e).buffer && Carries(Next(i, e).buffer[t], m)
    requires !(t in i.buffer && Carries(i.buffer[t], m))
    ensures m.stamp == Next(i, e).Now() && e.Issues()
  {
  }

  /** The CheckpointSN never decreases while the interface does not restart. */
  lemma {:induction false} CheckpointIsMonotone(s: seq<Iface>, es: seq<Event>, j: nat, k: nat, c: int, d: int)
    requires Run(s, es) && j <= k <= |es| && s[j].bootTime == s[k].bootTime
    requires IsCheckpoint(s[j], c) && IsCheckpoint(s[k], d)
    ensures c <= d
  {
    SettledStays(s, es, j, k, c);
  }

  lemma {:induction false} SettledStays(s: seq<Iface>, es: seq<Event>, j: nat, k: nat, c: int)
    requires Run(s, es) && j <= k <= |es| && s[j].bootTime == s[k].bootTime && Settled(s[j], c)
    ensures Settled(s[k], c)
    decreases k - j
  {
    if j < k {
      NowNeverGoesBack(s, es, j, k - 1);
      NowNeverGoesBack(s, es, k - 1, k);
      SettledStays(s, es, j, k - 1, c);
      RunKeepsInv(s, es, k - 1);
      StepKeepsSettled(s[k - 1], es[k - 1], c);
    }
  }

  // ----- The bound on retransmissions -----

  /** One tree on an interface, watched while nothing new is sent and nobody joins. */
  datatype Tx = Tx(rmt: Rmt, neighbors: set<Ip>)

  datatype TxEvent = Timeout | Acked(ip: Ip, stamp: Stamp) | Left(ip: Ip)

  function TxNext(x: Tx, e: TxEvent): Tx {
    match e
    case Timeout => var r := x.rmt.Expire(x.neighbors); Tx(r.DropFailed(), x.neighbors - r.Failed())
    case Acked(ip, stamp) => Tx(x.rmt.ReceiveAck(x.neighbors, ip, stamp), x.neighbors)
    case Left(ip) => Tx(x.rmt, x.neighbors - {ip})
  }

  function TxAfter(x: Tx, es: seq<TxEvent>): Tx
    decreases |es|
  {
    if es == [] then x else TxAfter(TxNext(x, es[0]), es[1..])
  }

  function Timeouts(es: seq<TxEvent>): nat {
    if es == [] then 0 else (if es[0].Timeout? then 1 else 0) + Timeouts(es[1..])
  }

  ghost predicate TxInv(x: Tx) {
    x.rmt.multicast.Some? ==> x.rmt.unicast.Keys <= x.rmt.acked
  }

  /** `j` timeouts have gone by: every neighbour still pending has failed `j` times; one more than
      the threshold and nobody is pending; one more again and nothing is in flight. */
  ghost predicate AtLevel(x: Tx, j: nat) {
    && TxInv(x)
    && (forall n :: n in x.neighbors && x.rmt.Pending(n) ==> GetOr(x.rmt.failures, n, 0) >= j)
    && (j > ACK_FAILURE_THRESHOLD ==> forall n :: n in x.neighbors ==> !x.rmt.Pending(n))
    && (j > ACK_FAILURE_THRESHOLD + 1 ==> x.rmt.Idle())
  }

  lemma TimeoutRaisesLevel(x: Tx, j: nat)
    requires AtLevel(x, j)
    ensures AtLevel(TxNext(x, Timeout), j + 1)
  {
    var y := TxNext(x, Timeout);
    forall n | n in y.neighbors && y.rmt.Pending(n) ensures GetOr(y.rmt.failures, n, 0) >= j + 1 {
      assert x.rmt.Pending(n);
    }
  }

  lemma OtherEventsKeepLevel(x: Tx, e: TxEvent, j: nat)
    requires AtLevel(x, j) && !e.Timeout?
    ensures AtLevel(TxNext(x, e), j)
  {
  }

  lemma {:induction false} TimeoutsRaiseLevel(x: Tx, es: seq<TxEvent>, j: nat)
    requires AtLevel(x, j)
    ensures AtLevel(TxAfter(x, es), j + Timeouts(es))
    decreases |es|
  {
    if es != [] {
      if es[0].Timeout? {
        TimeoutRaisesLevel(x, j);
        TimeoutsRaiseLevel(TxNext(x, es[0]), es[1..], j + 1);
      } else {
        OtherEventsKeepLevel(x, es[0], j);
        TimeoutsRaiseLevel(TxNext(x, es[0]), es[1..], j);
      }
    }
  }

  /** In whatever order acks arrive and neighbours leave, ACK_FAILURE_THRESHOLD + 2 timeouts
      leave nothing in flight: every neighbour has acked or has been declared failed. */
  lemma RetransmissionsAreBounded(i: Iface, t: Tree, es: seq<TxEvent>)
    requires Inv(i) && t in i.buffer
    requires Timeouts(es) >= ACK_FAILURE_THRESHOLD + 2
    ensures TxAfter(Tx(i.buffer[t], i.neighbors), es).rmt.Idle()
  {
    TimeoutsRaiseLevel(Tx(i.buffer[t], i.neighbors), es, 0);
  }

  // ----- When a neighbour fails -----

  /** A neighbour that owes an ack after `j` timeouts, and failed once at each of them. */
  ghost predicate Overdue(x: Tx, n: Ip, j: nat) {
    TxInv(x) && n in x.neighbors && x.rmt.Pending(n) && GetOr(x.rmt.failures, n, 0) == j
  }

  lemma OverdueStep(x: Tx, e: TxEvent, n: Ip, j: nat)
    requires Overdue(x, n, j) && j <= ACK_FAILURE_THRESHOLD
    requires !(e.Acked? && e.ip == n) && e != Left(n)
    ensures if e.Timeout? && j == ACK_FAILURE_THRESHOLD then n !in TxNext(x, e).neighbors
            else Overdue(TxNext(x, e), n, if e.Timeout? then j + 1 else j)
  {
  }

  lemma {:induction false} GoneStaysGone(x: Tx, es: seq<TxEvent>, n: Ip)
    requires n !in x.neighbors
    ensures n !in TxAfter(x, es).neighbors
    decreases |es|
  {
    if es != [] {
      GoneStaysGone(TxNext(x, es[0]), es[1..], n);
    }
  }

  lemma {:induction false} OverdueFailsAt(x: Tx, es: seq<TxEvent>, n: Ip, j: nat)
    requires Overdue(x, n, j) && j <= ACK_FAILURE_THRESHOLD
    requires forall k :: 0 <= k < |es| ==> !(es[k].Acked? && es[k].ip == n) && es[k] != Left(n)
    ensures n in TxAfter(x, es).neighbors <==> j + Timeouts(es) <= ACK_FAILURE_THRESHOLD
    decreases |es|
  {
    if es != [] {
      OverdueStep(x, es[0], n, j);
      if es[0].Timeout? && j == ACK_FAILURE_THRESHOLD {
        GoneStaysGone(TxNext(x, es[0]), es[1..], n);
      } else {
        OverdueFailsAt(TxNext(x, es[0]), es[1..], n, if es[0].Timeout? then j + 1 else j);
      }
    }
  }

  /** A neighbour that never acks what was just sent to it is given up at the timeout that follows
      ACK_FAILURE_THRESHOLD others, not earlier and not later, whatever the other neighbours do. */
  lemma FailsExactlyWhen(i: Iface, t: Tree, es: seq<TxEvent>, n: Ip)
    requires Inv(i) && t in i.buffer && n in i.neighbors && i.buffer[t].Pending(n) && n !in i.buffer[t].failures
    requires forall k :: 0 <= k < |es| ==> !(es[k].Acked? && es[k].ip == n) && es[k] != Left(n)
    ensures n in TxAfter(Tx(i.buffer[t], i.neighbors), es).neighbors <==> Timeouts(es) <= ACK_FAILURE_THRESHOLD
  {
    assert TreeInv(i, t, i.buffer[t]);
    OverdueFailsAt(Tx(i.buffer[t], i.neighbors), es, n, 0);
  }

  lemma {:induction false} NobodyFailsYet(x: Tx, es: seq<TxEvent>, n: Ip)
    requires n in x.neighbors && GetOr(x.rmt.failures, n, 0) + Timeouts(es) <= ACK_FAILURE_THRESHOLD
    requires forall k :: 0 <= k < |es| ==> es[k] != Left(n)
    ensures n in TxAfter(x, es).neighbors
    decreases |es|
  {
    if es != [] {
      NobodyFailsYet(TxNext(x, es[0]), es[1..], n);
    }
  }

  /** Whatever is in flight and whoever acks, up to ACK_FAILURE_THRESHOLD timeouts cost no neighbour. */
  lemma NobodyFailsEarly(x: Tx, es: seq<TxEvent>, n: Ip)
    requires n in x.neighbors && x.rmt.failures == map[] && Timeouts(es) <= ACK_FAILURE_THRESHOLD
    requires forall k :: 0 <= k < |es| ==> es[k] != Left(n)
    ensures n in TxAfter(x, es).neighbors
  {
    NobodyFailsYet(x, es, n);
  }

  /** At how many expiries for the tree, up to step `k` of a run, the neighbour owed an ack. */
  function Owing(s: seq<Iface>, es: seq<Event>, k: nat, t: Tree, n: Ip): nat
    requires k <= |es| < |s|
  {
    if k == 0 then 0
    else
      Owing(s, es, k - 1, t, n) +
      if es[k - 1] == Expire(t) && n in s[k - 1].neighbors && s[k - 1].Of(t).Pending(n) then 1 else 0
  }

  /** No failure is counted that is not one. */
  lemma {:induction false} FailuresAreOwed(s: seq<Iface>, es: seq<Event>, k: nat, t: Tree, n: Ip)
    requires Run(s, es) && k <= |es|
    ensures GetOr(s[k].Of(t).failures, n, 0) <= Owing(s, es, k, t, n)
  {
    if k > 0 {
      FailuresAreOwed(s, es, k - 1, t, n);
      FailureStep(s[k - 1], es[k - 1], t, n);
    }
  }

  lemma FailureStep(i: Iface, e: Event, t: Tree, n: Ip)
    ensures GetOr(Next(i, e).Of(t).failures, n, 0)
            <= GetOr(i.Of(t).failures, n, 0) + if e == Expire(t) && n in i.neighbors && i.Of(t).Pending(n) then 1 else 0
  {
  }

  /** Over every run a neighbour that does not leave is given up only at an expiry for a tree about
      which it owed an ack then and at more than ACK_FAILURE_THRESHOLD expiries in all. */
  lemma GivenUpOnlyIfOwing(s: seq<Iface>, es: seq<Event>, k: nat, n: Ip)
    requires Run(s, es) && k < |es| && n in s[k].neighbors && n !in s[k + 1].neighbors && es[k] != Leave(n)
    ensures es[k].Expire? && s[k].Of(es[k].tree).Pending(n)
    ensures Owing(s, es, k + 1, es[k].tree, n) > ACK_FAILURE_THRESHOLD
  {
    var t := es[k].tree;
    FailuresAreOwed(s, es, k, t, n);
    FailuresStayLow(s, es, k, t, n);
    FailingIsOwing(s[k], t, n);
  }

  /** Whoever is over the threshold is not kept. */
  lemma {:induction false} FailuresStayLow(s: seq<Iface>, es: seq<Event>, k: nat, t: Tree, n: Ip)
    requires Run(s, es) && k <= |es|
    ensures GetOr(s[k].Of(t).failures, n, 0) <= ACK_FAILURE_THRESHOLD
  {
    if k > 0 {
      FailuresStayLow(s, es, k - 1, t, n);
      FailureStep(s[k - 1], es[k - 1], t, n);
      LowStep(s[k - 1], t, n);
    }
  }

  lemma LowStep(i: Iface, t: Tree, n: Ip)
    ensures GetOr(i.Expire(t).Of(t).failures, n, 0) <= ACK_FAILURE_THRESHOLD || i.Expire(t) == i
  {
  }

  lemma FailingIsOwing(i: Iface, t: Tree, n: Ip)
    requires n in i.neighbors && n !in i.Expire(t).neighbors && GetOr(i.Of(t).failures, n, 0) <= ACK_FAILURE_THRESHOLD
    ensures i.Of(t).Pending(n) && GetOr(i.Of(t).failures, n, 0) + 1 > ACK_FAILURE_THRESHOLD
  {
  }
}
