/** One multicast tree at one router, as values: its interfaces, what they announce and whom the
    router tells that it is interested. */
module TreeSpec {
  import opened Types
  import opened Metrics

  type Vif = nat

  datatype TreeState = Active | Unsure | Inactive

  /** The best upstream neighbour of a link; `id` tells one received claim from another. */
  datatype Best = Best(claim: AssertMetric, id: nat)

  datatype TreeIf =
    | Root(best: Option<Best>, cur: TreeState, members: bool)
    | NonRoot(best: Option<Best>, cur: TreeState, members: bool,
              interested: bool, winner: bool, onHold: bool, rpc: Metric)

  /** What an interface sends, and when it appears and disappears as a whole. */
  datatype Out =
    | IamUpstream(vif: Vif, metric: Metric)
    | IamNoLongerUpstream(vif: Vif)
    | Interest(vif: Vif, to: Ip)
    | NoInterest(vif: Vif, to: Ip)
    | Opened(vif: Vif, sync: Option<Metric>)
    | Closed(vif: Vif)

  // ----- One interface -----

  /** Who is responsible for forwarding on the link. */
  predicate Wins(cur: TreeState, best: Option<Best>, mine: AssertMetric) {
    match cur
    case Active => best.None? || mine.IsBetterThan(best.value.claim)
    case Unsure => best.None?
    case Inactive => true
  }

  /** The assert state is set anew; who stops being winner goes on forwarding for a while. */
  function Elect(x: TreeIf, ip: Ip): TreeIf
    requires x.NonRoot?
  {
    var w := Wins(x.cur, x.best, AssertMetric(x.rpc, ip));
    if w == x.winner then x else x.(winner := w, onHold := !w)
  }

  /** What a snapshot says about the tree on this interface. */
  function Sync(x: TreeIf, connected: bool): Option<Metric> {
    if x.NonRoot? && x.cur.Active? && !connected then Some(x.rpc) else None
  }

  predicate Forwards(x: TreeIf, connected: bool) {
    x.NonRoot? && (x.members || x.interested) && (x.winner || x.onHold) && !connected
  }

  /** What every interface is told in turn: a new tree state or a new route metric. */
  datatype Change = ToState(state: TreeState) | ToRpc(rpc: Metric)

  function Changed(x: TreeIf, ip: Ip, connected: bool, ch: Change): TreeIf {
    match ch
    case ToState(s) =>
      if x.Root? then Root(x.best, s, x.members)
      else if x.cur == s || (s.Active? && connected) then x
      else Elect(x.(cur := s), ip)
    case ToRpc(m) =>
      if x.Root? || m == x.rpc then x else Elect(x.(rpc := m), ip)
  }

  predicate Flips(x: TreeIf, ip: Ip, connected: bool, ch: Change) {
    x.NonRoot? && Changed(x, ip, connected, ch).winner != x.winner
  }

  // ----- What was said -----

  function Heard(o: Out, i: Vif, before: Option<Metric>): Option<Metric> {
    if o.vif != i then before
    else match o
      case IamUpstream(_, m) => Some(m)
      case IamNoLongerUpstream(_) => None
      case Opened(_, sync) => sync
      case Closed(_) => None
      case _ => before
  }

  /** What a neighbour on link `i` that heard everything holds about this router. */
  function Announced(log: seq<Out>, i: Vif): Option<Metric> {
    if log == [] then None else Heard(log[|log| - 1], i, Announced(log[..|log| - 1], i))
  }

  /** The last interest told to `to` on link `i`. */
  function LastInterest(log: seq<Out>, i: Vif, to: Ip): Option<bool> {
    if log == [] then None
    else
      var o := log[|log| - 1];
      if o == Interest(i, to) then Some(true)
      else if o == NoInterest(i, to) then Some(false)
      else LastInterest(log[..|log| - 1], i, to)
  }

  predicate Asks(o: Out) {
    o.Interest? || o.NoInterest?
  }

  /** Interest is told only on links where nothing is announced. */
  ghost predicate SilentWhereAsking(log: seq<Out>) {
    forall k {:trigger log[..k]} :: 0 <= k < |log| && Asks(log[k]) ==> Announced(log[..k], log[k].vif) == None
  }

  /** Nothing is taken back, and no interface came or went. */
  ghost predicate OnlyOffers(log: seq<Out>) {
    forall k :: 0 <= k < |log| ==> log[k].IamUpstream? || Asks(log[k])
  }

  function Asked(i: Vif, to: Ip, interested: bool): Out {
    if interested then Interest(i, to) else NoInterest(i, to)
  }

  lemma SaidOne(log: seq<Out>, o: Out)
    ensures forall i :: Announced(log + [o], i) == Heard(o, i, Announced(log, i))
    ensures forall i, to :: LastInterest(log + [o], i, to) ==
              if o == Interest(i, to) then Some(true) else if o == NoInterest(i, to) then Some(false) else LastInterest(log, i, to)
    ensures SilentWhereAsking(log) && (Asks(o) ==> Announced(log, o.vif) == None) ==> SilentWhereAsking(log + [o])
  {
    assert (log + [o])[..|log|] == log;
    if SilentWhereAsking(log) && (Asks(o) ==> Announced(log, o.vif) == None) {
      forall k | 0 <= k < |log + [o]| && Asks((log + [o])[k])
        ensures Announced((log + [o])[..k], (log + [o])[k].vif) == None
      {
        if k < |log| {
          assert (log + [o])[..k] == log[..k];
        }
      }
    }
  }

  // ----- All interfaces -----

  /** What the environment fixes for each interface: its address, and whether the source is on its link. */
  datatype Links = Links(addresses: map<Vif, Ip>, connected: set<Vif>) {

    function Address(i: Vif): Ip {
      GetOr(addresses, i, 0)
    }

    predicate Connected(i: Vif) {
      i in connected
    }

    function Change(i: Vif, x: TreeIf, ch: Change): TreeIf {
      Changed(x, Address(i), Connected(i), ch)
    }

    predicate Flip(i: Vif, x: TreeIf, ch: Change) {
      Flips(x, Address(i), Connected(i), ch)
    }

    predicate Forward(i: Vif, x: TreeIf) {
      Forwards(x, Connected(i))
    }

    ghost predicate InTree(ifs: map<Vif, TreeIf>) {
      exists i :: i in ifs && Forward(i, ifs[i])
    }
  }

  /** What the router believes it told: whether it was in the tree, and what it last told its best
      upstream neighbour. */
  datatype Sig = Sig(was: bool, last: Option<bool>) {

    /** A change of interest is told to the best upstream neighbour, if there is one. */
    function Evaluate(asks: bool, now: bool): Sig {
      Sig(now, if asks && was != now then Some(now) else last)
    }
  }

  datatype Walk = Walk(ifs: map<Vif, TreeIf>, sig: Sig)

  /** The first `k` interfaces of `order` have been told of the change, one after the other; each
      that changes its assert state has the router's interest evaluated anew. */
  ghost function Walked(l: Links, w: Walk, order: seq<Vif>, k: nat, asks: bool, ch: Change): (r: Walk)
    requires k <= |order|
    ensures r.ifs.Keys == w.ifs.Keys
  {
    if k == 0 then w else Stepped(l, Walked(l, w, order, k - 1, asks, ch), order[k - 1], asks, ch)
  }

  ghost function Stepped(l: Links, v: Walk, i: Vif, asks: bool, ch: Change): (r: Walk)
    ensures r.ifs.Keys == v.ifs.Keys
  {
    if i !in v.ifs then v
    else
      var ifs := v.ifs[i := l.Change(i, v.ifs[i], ch)];
      Walk(ifs, if l.Flip(i, v.ifs[i], ch) then v.sig.Evaluate(asks, l.InTree(ifs)) else v.sig)
  }

  predicate Distinct(order: seq<Vif>) {
    forall m, n :: 0 <= m < n < |order| ==> order[m] != order[n]
  }

  /** The walk changes each interface on its way once. */
  lemma {:induction false} WalkedIfs(l: Links, w: Walk, order: seq<Vif>, k: nat, asks: bool, ch: Change)
    requires k <= |order| && Distinct(order) && forall n :: 0 <= n < |order| ==> order[n] in w.ifs
    ensures forall n :: 0 <= n < |order| ==>
              Walked(l, w, order, k, asks, ch).ifs[order[n]] ==
                if n < k then l.Change(order[n], w.ifs[order[n]], ch) else w.ifs[order[n]]
  {
    if k > 0 {
      WalkedIfs(l, w, order, k - 1, asks, ch);
      var v := Walked(l, w, order, k - 1, asks, ch);
      var ifs := v.ifs[order[k - 1] := l.Change(order[k - 1], v.ifs[order[k - 1]], ch)];
      assert Walked(l, w, order, k, asks, ch).ifs == ifs;
    }
  }

  /** Who forwards goes on forwarding: a former winner holds its state, a new winner forwards. */
  lemma ForwardingStays(l: Links, i: Vif, x: TreeIf, ch: Change)
    ensures l.Forward(i, x) ==> l.Forward(i, l.Change(i, x, ch))
    ensures !l.Flip(i, x, ch) ==> l.Forward(i, l.Change(i, x, ch)) == l.Forward(i, x)
  {
  }

  lemma OneChange(l: Links, ifs: map<Vif, TreeIf>, i: Vif, ch: Change)
    requires i in ifs
    ensures var after := ifs[i := l.Change(i, ifs[i], ch)];
            && (l.InTree(ifs) ==> l.InTree(after))
            && (!l.Flip(i, ifs[i], ch) ==> l.InTree(after) == l.InTree(ifs))
            && (!l.InTree(ifs) ==> l.InTree(after) == l.Forward(i, after[i]))
  {
    ForwardingStays(l, i, ifs[i], ch);
    var after := ifs[i := l.Change(i, ifs[i], ch)];
    if l.InTree(ifs) {
      var k :| k in ifs && l.Forward(k, ifs[k]);
      assert k in after && l.Forward(k, after[k]);
    }
    if l.InTree(after) {
      var k :| k in after && l.Forward(k, after[k]);
      if k != i {
        assert l.Forward(k, ifs[k]);
      }
    }
    if l.Forward(i, after[i]) {
      assert i in after;
    }
  }

  /** What the router told stays what it is, through any walk. */
  lemma {:induction false} WalkKeepsTold(l: Links, w: Walk, order: seq<Vif>, k: nat, asks: bool, ch: Change)
    requires k <= |order| && forall n :: 0 <= n < |order| ==> order[n] in w.ifs
    ensures var r := Walked(l, w, order, k, asks, ch);
            && (w.sig.was == l.InTree(w.ifs) ==> r.sig.was == l.InTree(r.ifs))
            && (asks && w.sig.last == Some(w.sig.was) ==> r.sig.last == Some(r.sig.was))
            && (l.InTree(w.ifs) ==> l.InTree(r.ifs))
  {
    if k > 0 {
      WalkKeepsTold(l, w, order, k - 1, asks, ch);
      OneChange(l, Walked(l, w, order, k - 1, asks, ch).ifs, order[k - 1], ch);
    }
  }

  /** The first interface on the way that changes its assert state. */
  function FirstFlip(l: Links, ifs: map<Vif, TreeIf>, order: seq<Vif>, k: nat, ch: Change): (f: Option<Vif>)
    requires k <= |order| && forall n :: 0 <= n < |order| ==> order[n] in ifs
    ensures f.Some? ==> f.value in ifs
  {
    if k == 0 then None
    else
      var f := FirstFlip(l, ifs, order, k - 1, ch);
      if f.Some? then f
      else if l.Flip(order[k - 1], ifs[order[k - 1]], ch) then Some(order[k - 1])
      else None
  }

  /** The router left the tree, told so, and does not know: whether it finds out depends on the
      first interface that changes its assert state. If that one forwards, the router returns to
      the tree without a word. */
  lemma {:induction false} WalkFromUnawares(l: Links, w: Walk, order: seq<Vif>, k: nat, ch: Change)
    requires k <= |order| && Distinct(order) && forall n :: 0 <= n < |order| ==> order[n] in w.ifs
    requires w.sig == UNAWARES && !l.InTree(w.ifs)
    ensures Outcome(l, w.ifs, FirstFlip(l, w.ifs, order, k, ch), Walked(l, w, order, k, true, ch), ch)
  {
    if k > 0 {
      WalkFromUnawares(l, w, order, k - 1, ch);
      WalkedIfs(l, w, order, k - 1, true, ch);
      var v := Walked(l, w, order, k - 1, true, ch);
      StepFromUnawares(l, w.ifs, FirstFlip(l, w.ifs, order, k - 1, ch), v, order[k - 1], ch);
    }
  }

  /** In the tree as far as the router remembers, out of it as far as its neighbour was told. */
  const UNAWARES := Sig(true, Some(false))

  ghost predicate Outcome(l: Links, ifs: map<Vif, TreeIf>, f: Option<Vif>, r: Walk, ch: Change)
    requires f.Some? ==> f.value in ifs
  {
    match f
    case None => r.sig == UNAWARES && !l.InTree(r.ifs)
    case Some(i) =>
      if l.Forward(i, l.Change(i, ifs[i], ch)) then r.sig == UNAWARES && l.InTree(r.ifs)
      else r.sig.last == Some(r.sig.was) && r.sig.was == l.InTree(r.ifs)
  }

  lemma StepFromUnawares(l: Links, ifs: map<Vif, TreeIf>, f: Option<Vif>, v: Walk, i: Vif, ch: Change)
    requires i in ifs && i in v.ifs && v.ifs[i] == ifs[i] && (f.Some? ==> f.value in ifs)
    requires Outcome(l, ifs, f, v, ch)
    ensures Outcome(l, ifs, if f.Some? then f else if l.Flip(i, ifs[i], ch) then Some(i) else None,
                    Stepped(l, v, i, true, ch), ch)
  {
    OneChange(l, v.ifs, i, ch);
  }

  /** Whoever forwards, a neighbour that was told so stays informed. */
  lemma {:induction false} WalkInTree(l: Links, w: Walk, order: seq<Vif>, k: nat, ch: Change)
    requires k <= |order| && (forall n :: 0 <= n < |order| ==> order[n] in w.ifs) && l.InTree(w.ifs)
    ensures var r := Walked(l, w, order, k, true, ch);
            && l.InTree(r.ifs)
            && (w.sig.last == Some(true) ==> r.sig.last == Some(true))
            && (w.sig == UNAWARES ==> r.sig == UNAWARES)
  {
    if k > 0 {
      WalkInTree(l, w, order, k - 1, ch);
      OneChange(l, Walked(l, w, order, k - 1, true, ch).ifs, order[k - 1], ch);
    }
  }

  /** A metric that every interface knows already changes nothing. */
  lemma {:induction false} IdleWalk(l: Links, w: Walk, order: seq<Vif>, k: nat, asks: bool, m: Metric)
    requires k <= |order| && forall i :: i in w.ifs && w.ifs[i].NonRoot? ==> w.ifs[i].rpc == m
    ensures Walked(l, w, order, k, asks, ToRpc(m)) == w
  {
    if k > 0 {
      IdleWalk(l, w, order, k - 1, asks, m);
      if order[k - 1] in w.ifs {
        assert w.ifs[order[k - 1] := w.ifs[order[k - 1]]] == w.ifs;
      }
    }
  }

  // ----- Where everybody forwards who is asked to -----

  /** Nobody on its way to being overruled: every interface that somebody wants data on forwards. */
  ghost predicate Steadfast(l: Links, ifs: map<Vif, TreeIf>) {
    forall i :: i in ifs && ifs[i].NonRoot? && !l.Connected(i) ==> ifs[i].winner || ifs[i].onHold
  }

  lemma SteadfastStep(l: Links, ifs: map<Vif, TreeIf>, i: Vif, ch: Change)
    requires Steadfast(l, ifs) && i in ifs
    ensures var after := ifs[i := l.Change(i, ifs[i], ch)]; Steadfast(l, after) && l.InTree(after) == l.InTree(ifs)
  {
    OneChange(l, ifs, i, ch);
    assert l.Forward(i, l.Change(i, ifs[i], ch)) ==> l.Forward(i, ifs[i]);
  }

  /** Then a walk changes nothing about the router's interest; it can only find out. */
  lemma {:induction false} SteadfastWalk(l: Links, w: Walk, order: seq<Vif>, k: nat, asks: bool, ch: Change)
    requires k <= |order| && (forall n :: 0 <= n < |order| ==> order[n] in w.ifs) && Steadfast(l, w.ifs)
    ensures var r, now := Walked(l, w, order, k, asks, ch), l.InTree(w.ifs);
            && Steadfast(l, r.ifs) && l.InTree(r.ifs) == now
            && (r.sig == w.sig || r.sig == w.sig.Evaluate(asks, now))
  {
    if k > 0 {
      SteadfastWalk(l, w, order, k - 1, asks, ch);
      SteadfastStep(l, Walked(l, w, order, k - 1, asks, ch).ifs, order[k - 1], ch);
    }
  }
}
