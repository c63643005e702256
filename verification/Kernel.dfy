/** The table of trees a router keeps, and the caches of its entries: what each link's neighbours
    say about a tree, in sum. The databases of the neighbours change under it. */
module Kernel {
  import opened Types
  import opened Metrics
  import opened ReliableSpec
  import opened NeighborSpec
  import opened TreeDatabase
  import T = TreeEntry

  type Vif = nat

  function With(db: Database, n: Ip, nb: Nb): Database {
    db[n := nb]
  }

  /** The part of a tree's entry that the table works on. `sat` is set while the router is next to
      the source and hears it; `lapsed`, kept for the proof only, once the entry has been Inactive. */
  datatype Row = Row(ifs: set<Vif>, upstream: map<Vif, Option<AssertMetric>>, interest: map<Vif, bool>,
                     originator: bool, sat: bool, inactive: bool, lapsed: bool) {

    function Upstream(v: Vif): Option<AssertMetric> {
      GetOr(upstream, v, None)
    }

    function Interest(v: Vif): bool {
      GetOr(interest, v, false)
    }

    /** What it knows of the other links is what it was. */
    ghost predicate SameBut(v: Vif, before: Row) {
      forall w :: w != v ==> Upstream(w) == before.Upstream(w) && Interest(w) == before.Interest(w)
    }

    predicate Wanted() {
      sat || exists v :: v in upstream && upstream[v].Some?
    }

    /** The state of the tree is checked: it is Inactive when nobody brings it. */
    function Checked(): Row {
      Become(!Wanted())
    }

    function Become(asleep: bool): Row {
      this.(inactive := asleep, lapsed := lapsed || asleep)
    }

    function CheckInterest(v: Vif, interested: bool): Row {
      if v !in ifs || inactive then this else this.(interest := interest[v := interested])
    }

    function CheckInterface(v: Vif, best: Option<AssertMetric>, interested: bool): Row {
      if v !in ifs || inactive then this
      else this.(upstream := upstream[v := best], interest := interest[v := interested]).Checked()
    }

    /** Unicast routing says something else about the source; `moved` when it leads through another
        interface or, away from the source, has another metric. */
    function Rerouted(direct: bool, routed: bool, moved: bool): Row {
      if originator != direct then Become(true)
      else if !moved then this
      else this.(sat := originator && routed).Checked()
    }

    function Add(v: Vif): Row {
      if v in ifs then this
      else
        var row := this.(ifs := ifs + {v}, upstream := upstream[v := None], interest := interest[v := false]);
        if originator then row else row.Checked()
    }

    function Remove(v: Vif): Row {
      if v !in ifs then this
      else this.(ifs := ifs - {v}, upstream := upstream - {v}, interest := interest - {v}).Checked()
    }
  }

  /** What unicast routing says of the sources: which are directly connected, and on which of the
      links there is an interface towards them. */
  datatype Near = Near(direct: set<Ip>, routed: set<Ip>) {

    predicate Hears(t: Tree) {
      t.source in direct && t.source in routed
    }
  }

  predicate Resyncing(db: Database) {
    exists n :: n in db && db[n].state != Synced
  }

  // ----- The tables -----

  type Routing = map<Ip, map<Ip, Row>>

  function At(r: Routing, t: Tree): Option<Row> {
    if t.source in r && t.group in r[t.source] then Some(r[t.source][t.group]) else None
  }

  function Put(r: Routing, t: Tree, row: Row): Routing {
    r[t.source := (if t.source in r then r[t.source] else map[])[t.group := row]]
  }

  /** A source whose last tree goes goes with it. */
  function Drop(r: Routing, t: Tree): Routing {
    if t.source !in r then r
    else if r[t.source] - {t.group} == map[] then r - {t.source}
    else r[t.source := r[t.source] - {t.group}]
  }

  predicate NoneEmpty(r: Routing) {
    forall s :: s in r ==> r[s] != map[]
  }

  lemma PutAt(r: Routing, t: Tree, row: Row)
    ensures forall u :: At(Put(r, t, row), u) == if u == t then Some(row) else At(r, u)
    ensures NoneEmpty(r) ==> NoneEmpty(Put(r, t, row))
  {
    assert t.group in Put(r, t, row)[t.source];
  }

  lemma DropAt(r: Routing, t: Tree)
    ensures forall u :: At(Drop(r, t), u) == if u == t then None else At(r, u)
    ensures NoneEmpty(r) ==> NoneEmpty(Drop(r, t))
  {
    if t.source in r && r[t.source] - {t.group} == map[] {
      forall u | At(r, u).Some? && u.source == t.source ensures u == t {
        assert u.group !in r[t.source] - {t.group};
      }
    }
  }

  datatype Tables = Tables(vifs: set<Vif>, hpim: map<Vif, Database>, routing: Routing, removals: multiset<Tree>) {

    function Db(v: Vif): Database {
      GetOr(hpim, v, map[])
    }

    function Row(t: Tree): Option<Row> {
      At(routing, t)
    }

    /** The caches of a row agree with what the neighbours of link `v` say. */
    ghost predicate Coherent(v: Vif, t: Tree, row: Row) {
      BestOf(Db(v), t, row.Upstream(v)) && row.Interest(v) == SomeInterest(Db(v), t)
    }

    predicate RowShape(t: Tree, row: Row) {
      && row.ifs == vifs && row.upstream.Keys <= vifs && (row.sat ==> row.originator)
      && (row.inactive || row.Wanted()) && (row.inactive ==> row.lapsed) && (row.lapsed ==> t in removals)
    }

    ghost predicate RowOk(v: Vif, open: iset<Tree>, t: Tree, row: Row) {
      && RowShape(t, row)
      && forall w :: !row.lapsed && w in vifs && !(w == v && t in open) && !Resyncing(Db(w)) ==> Coherent(w, t, row)
    }

    ghost predicate RowsOk(v: Vif, open: iset<Tree>) {
      && hpim.Keys <= vifs && NoneEmpty(routing)
      && forall t :: Row(t).Some? ==> RowOk(v, open, t, Row(t).value)
    }

    ghost predicate Complete(v: Vif, open: iset<Tree>) {
      forall t, w :: w in hpim && Brings(hpim[w], t) && !(w == v && t in open) ==> Row(t).Some?
    }

    /** Everything is as it should be, but for what the entries of the trees in `open` say about link `v`. */
    ghost predicate Sound(v: Vif, open: iset<Tree>) {
      RowsOk(v, open) && Complete(v, open)
    }

    /** What is known to be upstream on the link is right, whatever is known of interest. */
    ghost predicate BestKept(v: Vif, t: Tree) {
      && (Brings(Db(v), t) ==> Row(t).Some?)
      && (Row(t).Some? && !Row(t).value.lapsed && !Resyncing(Db(v)) ==> BestOf(Db(v), t, Row(t).value.Upstream(v)))
    }

    /** What a handler that asks the neighbours of link `v` leaves, exactly: an Inactive entry does
        not listen, so it is right only if it was. */
    ghost predicate Heeded(v: Vif, t: Tree, before: Option<Row>) {
      && Row(t).Some? && (before.Some? ==> Row(t).value.SameBut(v, before.value))
      && (Coherent(v, t, Row(t).value) <==> before.None? || !before.value.inactive || Coherent(v, t, before.value))
    }

    /** The same for a handler that asks about interest only. */
    ghost predicate HeededInterest(v: Vif, t: Tree, before: Option<Row>) {
      && Row(t).Some? && before.Some? && Row(t).value.SameBut(v, before.value)
      && (Coherent(v, t, Row(t).value) <==>
            if before.value.inactive then Coherent(v, t, before.value) else BestOf(Db(v), t, before.value.Upstream(v)))
    }

    /** Between any two handlers: every tree that a synchronised neighbour brings has an entry, an
        entry that has been Inactive is about to be removed, and the caches of every other entry are
        what the neighbours of a link say, unless one of these is being synchronised. */
    ghost predicate Valid() {
      Sound(0, iset{})
    }
  }

  lemma OpenMore(k: Tables, v: Vif, w: Vif, open: iset<Tree>)
    requires k.Sound(v, iset{})
    ensures k.Sound(w, open)
  {
    forall t | k.Row(t).Some? ensures k.RowOk(w, open, t, k.Row(t).value) {
      assert k.RowOk(v, iset{}, t, k.Row(t).value);
    }
  }

  function Forgotten(db: Database, t: Tree): Database {
    map n | n in db :: db[n].(interest := db[n].interest - {t})
  }

  function ForgottenUnless(hpim: map<Vif, Database>, v: Vif, t: Tree, known: bool): map<Vif, Database> {
    if v in hpim && !known then hpim[v := Forgotten(hpim[v], t)] else hpim
  }

  /** One row is put in place of another, or in a place that was empty. */
  lemma PutIsSound(k: Tables, k2: Tables, v: Vif, open: iset<Tree>, t: Tree, row: Row)
    requires k.RowsOk(v, open) && k2 == k.(routing := Put(k.routing, t, row), removals := k2.removals)
    requires forall u :: u != t ==> (u in k2.removals <==> u in k.removals)
    requires k2.RowOk(v, open - iset{t}, t, row)
    ensures k2.RowsOk(v, open - iset{t}) && (k.Complete(v, open) ==> k2.Complete(v, open - iset{t}))
    ensures k2.Row(t) == Some(row) && forall u :: u != t ==> k2.Row(u) == k.Row(u)
  {
    PutAt(k.routing, t, row);
    forall u | k2.Row(u).Some? ensures k2.RowOk(v, open - iset{t}, u, k2.Row(u).value) {
      if u != t {
        assert k.RowOk(v, open, u, k.Row(u).value);
      }
    }
    if k.Complete(v, open) {
      forall u, w | w in k2.hpim && Brings(k2.hpim[w], u) && !(w == v && u in open - iset{t}) ensures k2.Row(u).Some? {
        if u != t {
          assert k.Row(u).Some?;
        }
      }
    }
  }

  /** A new entry knows what everybody says, and somebody brings the tree. */
  lemma CreatedIsSound(k: Tables, k2: Tables, v: Vif, open: iset<Tree>, t: Tree, row: Row)
    requires k.RowsOk(v, open) && k.Row(t).None? && k2 == k.(routing := Put(k.routing, t, row))
    requires row == Row(k.vifs, row.upstream, row.interest, row.originator, row.sat, false, false).Checked()
    requires row.upstream.Keys == row.interest.Keys == k.hpim.Keys && (row.sat ==> row.originator)
    requires forall w :: w in k.hpim ==>
               BestOf(k.hpim[w], t, row.upstream[w]) && row.interest[w] == SomeInterest(k.hpim[w], t)
    requires row.sat || exists w :: w in k.hpim && Brings(k.hpim[w], t)
    ensures k2.RowsOk(v, open - iset{t}) && (k.Complete(v, open) ==> k2.Complete(v, open - iset{t}))
    ensures k2.Row(t) == Some(row) && !row.inactive
    ensures forall w :: w in k.vifs ==> k2.Coherent(w, t, row)
    ensures forall u :: u != t ==> k2.Row(u) == k.Row(u)
  {
    if !row.sat {
      var w :| w in k.hpim && Brings(k.hpim[w], t);
      BestBrings(k.hpim[w], t, row.upstream[w]);
      assert w in row.upstream && row.upstream[w].Some?;
    }
    assert row.Wanted();
    forall w | w in k.vifs ensures k2.Coherent(w, t, row) {
    }
    PutIsSound(k, k2, v, open, t, row);
  }

  /** An entry learns what the neighbours of one link say. */
  lemma CheckedIsSound(k: Tables, k2: Tables, v: Vif, open: iset<Tree>, t: Tree, best: Option<AssertMetric>, interested: bool)
    requires k.Sound(v, open) && k.Row(t).Some?
    requires BestOf(k.Db(v), t, best) && interested == SomeInterest(k.Db(v), t)
    requires var row := k.Row(t).value.CheckInterface(v, best, interested);
             && k2 == k.(routing := Put(k.routing, t, row), removals := k2.removals)
             && k2.removals == k.removals + if row.inactive && !k.Row(t).value.inactive then multiset{t} else multiset{}
    ensures k2.Sound(v, open - iset{t}) && k2.Row(t) == Some(k.Row(t).value.CheckInterface(v, best, interested))
    ensures forall u :: u != t ==> k2.Row(u) == k.Row(u)
  {
    CheckedRowOk(k, k2, v, open, t, k.Row(t).value, best, interested);
    PutIsSound(k, k2, v, open, t, k.Row(t).value.CheckInterface(v, best, interested));
  }

  lemma CheckedRowOk(k: Tables, k2: Tables, v: Vif, open: iset<Tree>, t: Tree, row: Row, best: Option<AssertMetric>, interested: bool)
    requires k.RowOk(v, open, t, row) && k2.vifs == k.vifs && k2.hpim == k.hpim
    requires BestOf(k.Db(v), t, best) && interested == SomeInterest(k.Db(v), t)
    requires t in k.removals || row.CheckInterface(v, best, interested).lapsed ==> t in k2.removals
    ensures k2.RowOk(v, open - iset{t}, t, row.CheckInterface(v, best, interested))
  {
    var row2 := row.CheckInterface(v, best, interested);
    assert k2.RowShape(t, row2);
    if !row2.lapsed {
      if v in row.ifs {
        CheckedCaches(row, v, best, interested);
      }
      forall w | w in k2.vifs && !Resyncing(k2.Db(w)) ensures k2.Coherent(w, t, row2) {
        if w != v {
          assert k.Coherent(w, t, row);
        }
      }
    }
  }

  lemma CheckedCaches(row: Row, v: Vif, best: Option<AssertMetric>, interested: bool)
    requires !row.inactive && v in row.ifs
    ensures var row2 := row.CheckInterface(v, best, interested);
            && row2.Upstream(v) == best && row2.Interest(v) == interested
            && forall w :: w != v ==> row2.Upstream(w) == row.Upstream(w) && row2.Interest(w) == row.Interest(w)
  {
  }

  lemma CheckedIsHeeded(k: Tables, k2: Tables, v: Vif, t: Tree, best: Option<AssertMetric>, interested: bool)
    requires k.Row(t).Some? && k2.hpim == k.hpim && v in k.Row(t).value.ifs
    requires BestOf(k.Db(v), t, best) && interested == SomeInterest(k.Db(v), t)
    requires k2.Row(t) == Some(k.Row(t).value.CheckInterface(v, best, interested))
    ensures k2.Heeded(v, t, k.Row(t))
  {
    if !k.Row(t).value.inactive {
      CheckedCaches(k.Row(t).value, v, best, interested);
    }
  }

  /** Nobody knows the tree: nothing is claimed about it. */
  lemma UnknownIsSound(k: Tables, v: Vif, open: iset<Tree>, t: Tree)
    requires k.Sound(v, open) && k.Row(t).None? && !Brings(k.Db(v), t)
    ensures k.Sound(v, open - iset{t})
  {
    forall u | k.Row(u).Some? ensures k.RowOk(v, open - iset{t}, u, k.Row(u).value) {
      assert k.RowOk(v, open, u, k.Row(u).value);
    }
  }

  ghost function Everything(): iset<Tree> {
    iset t: Tree | t.Tree?
  }

  function Mentioned(nb: Nb): set<Tree> {
    nb.upstream.Keys + nb.interest.Keys
  }

  lemma OnlyKnownIsOpen(k: Tables, v: Vif, open: iset<Tree>)
    requires k.Sound(v, Everything())
    requires forall t :: k.Row(t).Some? ==> t in open
    requires forall t, n :: n in k.Db(v) && t in Mentioned(k.Db(v)[n]) ==> t in open
    ensures k.Sound(v, open)
  {
    forall t | k.Row(t).Some? ensures k.RowOk(v, open, t, k.Row(t).value) {
      assert k.RowOk(v, Everything(), t, k.Row(t).value);
    }
    forall t | Brings(k.Db(v), t) ensures t in open {
      var n :| n in k.Db(v) && k.Db(v)[n].TreeState(t).1.Some?;
      assert t in Mentioned(k.Db(v)[n]);
    }
  }

  // ----- What this means -----

  /** With no removal under way and every neighbour synchronised, there is an entry for a tree of a
      source that is not heard exactly while somebody brings it, and it is not Inactive. */
  lemma EntryWhileBrought(k: Tables, t: Tree)
    requires k.Valid()
    requires forall v :: v in k.hpim ==> !Resyncing(k.hpim[v])
    requires k.Row(t).Some? ==> !k.Row(t).value.sat && !k.Row(t).value.lapsed
    ensures k.Row(t).Some? <==> exists v :: v in k.hpim && Brings(k.hpim[v], t)
    ensures k.Row(t).Some? ==> !k.Row(t).value.inactive
  {
    if k.Row(t).Some? {
      var row := k.Row(t).value;
      assert k.RowOk(0, iset{}, t, row);
      var v :| v in row.upstream && row.upstream[v].Some?;
      assert k.Coherent(v, t, row);
      BestBrings(k.Db(v), t, row.Upstream(v));
    }
  }

  /** The state that a row stands for is the state that the entry of the tree classifies itself to. */
  lemma RowStandsForEntry(e: T.Entry, row: Row)
    requires e.ifs != map[] && !row.sat && row.upstream.Keys == e.upstream.Keys
    requires forall v :: v in row.upstream ==> (row.upstream[v].Some? <==> e.upstream[v].Some?)
    ensures row.Checked().inactive <==> e.Classified().Inactive?
  {
    if row.Wanted() {
      var v :| v in row.upstream && row.upstream[v].Some?;
      assert e.upstream[v].Some?;
    }
    if T.SomebodyUpstream(e.upstream) {
      var v :| v in e.upstream && e.upstream[v].Some?;
      assert row.upstream[v].Some?;
    }
  }

  /** Why nothing is promised of an entry that is about to be removed. The source becomes directly
      connected, so the entry becomes Inactive; its neighbour's new metric is ignored; the route
      moves away again before the removal has its turn, and the entry lives on with the old metric. */
  lemma StaleWhileBeingRemoved()
    ensures var t, first, second := Tree(7, 8), Metric(1, 1), Metric(1, 2);
            var row := Row({0}, map[0 := Some(AssertMetric(first, 5))], map[0 := false], false, false, false, false);
            var later := row.Rerouted(true, true, true).CheckInterface(0, Some(AssertMetric(second, 5)), false)
                            .Rerouted(false, true, true);
            var nb := NewNb(1, 1).(state := Synced, upstream := map[t := second]);
            var before := Tables({0}, map[0 := map[5 := nb.(upstream := map[t := first])]], Put(map[], t, row), multiset{});
            var after := Tables({0}, map[0 := map[5 := nb]], Put(map[], t, later), multiset{t});
            && before.Valid() && after.Valid() && !later.inactive && later.lapsed
            && !Resyncing(after.Db(0)) && !after.Coherent(0, t, later)
  {
    var t, first, second := Tree(7, 8), Metric(1, 1), Metric(1, 2);
    var row := Row({0}, map[0 := Some(AssertMetric(first, 5))], map[0 := false], false, false, false, false);
    assert row.upstream[0].Some?;
    assert row.Rerouted(true, true, true) == row.Become(true);
    PutAt(map[], t, row);
  }

  /** And such an entry can be live when its removal gets its turn although nobody brings the tree:
      it is then removed for good, announced or not. */
  lemma LiveWhenRemoved()
    ensures var t, first := Tree(7, 8), AssertMetric(Metric(1, 1), 5);
            var row := Row({0}, map[0 := Some(first)], map[0 := false], false, false, false, false);
            var later := row.Rerouted(true, true, true).CheckInterface(0, None, false).Rerouted(false, true, true);
            var nb := NewNb(1, 1).(state := Synced);
            var before := Tables({0}, map[0 := map[5 := nb.(upstream := map[t := first.metric])]], Put(map[], t, row), multiset{});
            var after := Tables({0}, map[0 := map[5 := nb]], Put(map[], t, later), multiset{t});
            && before.Valid() && after.Valid() && after.Row(t) == Some(later) && !later.inactive
            && t in after.removals && forall v :: v in after.hpim ==> !Brings(after.hpim[v], t)
  {
    var t, first := Tree(7, 8), AssertMetric(Metric(1, 1), 5);
    var row := Row({0}, map[0 := Some(first)], map[0 := false], false, false, false, false);
    assert row.upstream[0].Some?;
    assert row.Rerouted(true, true, true) == row.Become(true);
    PutAt(map[], t, row);
  }

  // ----- The databases change -----

  /** Only what the neighbours of one link say changed, and only about the open trees. */
  lemma HeardIsSound(k: Tables, k2: Tables, v: Vif, open: iset<Tree>)
    requires k.Valid() && k2 == k.(hpim := k2.hpim) && k2.hpim.Keys <= k2.vifs
    requires forall w :: w != v ==> (w in k.hpim <==> w in k2.hpim) && k.Db(w) == k2.Db(w)
    requires !Resyncing(k2.Db(v)) && open != Everything() ==> !Resyncing(k.Db(v)) && SameSays(k.Db(v), k2.Db(v), open)
    requires forall t :: t !in open && Brings(k2.Db(v), t) ==> v in k.hpim && Brings(k.hpim[v], t)
    ensures k2.Sound(v, open)
  {
    forall t | k2.Row(t).Some? ensures k2.RowOk(v, open, t, k2.Row(t).value) {
      var row := k.Row(t).value;
      assert k.RowOk(0, iset{}, t, row);
      forall w | !row.lapsed && w in k2.vifs && !(w == v && t in open) && !Resyncing(k2.Db(w))
        ensures k2.Coherent(w, t, row)
      {
        assert k.Coherent(w, t, row);
        if w == v {
          SameAnswer(k.Db(v), k2.Db(v), open, t, row.Upstream(v));
        }
      }
    }
    forall t, w | w in k2.hpim && Brings(k2.hpim[w], t) && !(w == v && t in open) ensures k2.Row(t).Some? {
      assert Brings(k2.Db(w), t);
      assert w in k.hpim && Brings(k.hpim[w], t) by {
        if w != v {
          assert k.Db(w) == k2.Db(w);
        }
      }
      assert k.Row(t).Some?;
    }
  }

  /** Every neighbour says the same about every tree that is not open. */
  ghost predicate SameSays(db: Database, db2: Database, open: iset<Tree>) {
    db2.Keys == db.Keys && forall n, t :: n in db && t !in open ==> db2[n].TreeState(t) == db[n].TreeState(t)
  }

  lemma SameAnswer(db: Database, db2: Database, open: iset<Tree>, t: Tree, best: Option<AssertMetric>)
    requires SameSays(db, db2, open) && t !in open
    ensures BestOf(db, t, best) ==> BestOf(db2, t, best)
    ensures SomeInterest(db, t) == SomeInterest(db2, t)
  {
    forall n | n in db ensures db2[n].TreeState(t) == db[n].TreeState(t) {
    }
    if SomeInterest(db2, t) {
      var n :| n in db2 && db2[n].TreeState(t).0;
      assert db[n].TreeState(t).0;
    }
    if SomeInterest(db, t) {
      var n :| n in db && db[n].TreeState(t).0;
      assert db2[n].TreeState(t).0;
    }
  }

  /** Interest, or none, of somebody who was not upstream. */
  predicate InterestOnly(nb: Nb, t: Tree, kind: Kind) {
    (kind.Interest? || kind.NoInterest?) && t !in nb.upstream
  }

  /** A stored message changes what its sender says about its tree, and nothing else. */
  lemma StoredSays(db: Database, n: Ip, t: Tree, kind: Kind)
    requires n in db
    ensures var db2 := With(db, n, db[n].Apply(t, kind));
            && Resyncing(db2) == Resyncing(db) && SameSays(db, db2, iset{t})
            && (forall u :: u != t && Brings(db2, u) ==> Brings(db, u))
  {
    var db2 := With(db, n, db[n].Apply(t, kind));
    forall m | m in db ensures m in db2 && db2[m].state == db[m].state {
    }
    forall m | m in db2 ensures m in db && db2[m].state == db[m].state {
    }
    forall u | u != t && Brings(db2, u) ensures Brings(db, u) {
      var m :| m in db2 && db2[m].TreeState(u).1.Some?;
      assert db[m].TreeState(u).1.Some?;
    }
  }

  /** Interest of somebody who was not upstream leaves everybody's upstream state alone. */
  lemma InterestKeepsBest(db: Database, n: Ip, t: Tree, kind: Kind, best: Option<AssertMetric>)
    requires n in db && InterestOnly(db[n], t, kind)
    ensures var db2 := With(db, n, db[n].Apply(t, kind));
            (BestOf(db, t, best) ==> BestOf(db2, t, best)) && (Brings(db2, t) ==> Brings(db, t))
  {
    var db2 := With(db, n, db[n].Apply(t, kind));
    forall m | m in db ensures db2[m].TreeState(t).1 == db[m].TreeState(t).1 {
    }
    if Brings(db2, t) {
      var m :| m in db2 && db2[m].TreeState(t).1.Some?;
      assert db[m].TreeState(t).1.Some?;
    }
  }

  lemma StoredIsSound(k: Tables, k2: Tables, v: Vif, n: Ip, t: Tree, kind: Kind)
    requires k.Valid() && v in k.hpim && n in k.hpim[v]
    requires k2 == k.(hpim := k.hpim[v := With(k.hpim[v], n, k.hpim[v][n].Apply(t, kind))])
    ensures k2.Sound(v, iset{t})
    ensures InterestOnly(k.hpim[v][n], t, kind) ==> k2.BestKept(v, t)
  {
    StoredSays(k.hpim[v], n, t, kind);
    HeardIsSound(k, k2, v, iset{t});
    if InterestOnly(k.hpim[v][n], t, kind) {
      var best := if k.Row(t).Some? then k.Row(t).value.Upstream(v) else None;
      InterestKeepsBest(k.hpim[v], n, t, kind, best);
      if k.Row(t).Some? {
        assert k.RowOk(0, iset{}, t, k.Row(t).value);
      }
    }
  }

  lemma UnheardIsSound(k: Tables, k2: Tables, v: Vif, n: Ip)
    requires k.Valid() && v in k.hpim && n in k2.Db(v) && k2.Db(v)[n].state != Synced
    requires k2 == k.(hpim := k.hpim[v := With(k.hpim[v], n, k2.Db(v)[n])])
    ensures k2.Valid()
  {
    assert Resyncing(k2.Db(v));
    HeardIsSound(k, k2, v, iset{});
    OpenMore(k2, v, 0, iset{});
  }

  lemma ForgottenSays(db: Database, t: Tree)
    ensures Resyncing(Forgotten(db, t)) == Resyncing(db) && SameSays(db, Forgotten(db, t), iset{t})
    ensures forall u :: Brings(Forgotten(db, t), u) ==> Brings(db, u)
  {
    var db2 := Forgotten(db, t);
    forall m | m in db ensures m in db2 && db2[m].state == db[m].state {
    }
    forall u | Brings(db2, u) ensures Brings(db, u) {
      var m :| m in db2 && db2[m].TreeState(u).1.Some?;
      assert db[m].TreeState(u).1.Some?;
    }
  }

  /** Nobody's interest in a tree without an entry matters. */
  lemma ForgottenIsSound(k: Tables, v: Vif, open: iset<Tree>, w: Vif, t: Tree)
    requires k.Sound(v, open) && k.Row(t).None? && w in k.hpim
    ensures k.(hpim := k.hpim[w := Forgotten(k.hpim[w], t)]).Sound(v, open)
  {
    var k2 := k.(hpim := k.hpim[w := Forgotten(k.hpim[w], t)]);
    ForgottenSays(k.hpim[w], t);
    forall u | k2.Row(u).Some? ensures k2.RowOk(v, open, u, k2.Row(u).value) {
      var row := k.Row(u).value;
      assert k.RowOk(v, open, u, row);
      forall x | !row.lapsed && x in k2.vifs && !(x == v && u in open) && !Resyncing(k2.Db(x)) ensures k2.Coherent(x, u, row) {
        assert k.Coherent(x, u, row);
        if x == w {
          SameAnswer(k.Db(w), k2.Db(w), iset{t}, u, row.Upstream(w));
        }
      }
    }
    forall u, x | x in k2.hpim && Brings(k2.hpim[x], u) && !(x == v && u in open) ensures k2.Row(u).Some? {
      assert Brings(k.hpim[x], u);
      assert k.Row(u).Some?;
    }
  }

  lemma InterestIsSound(k: Tables, k2: Tables, v: Vif, t: Tree, interested: bool)
    requires k.Sound(v, iset{t}) && k.Row(t).Some? && k.BestKept(v, t) && interested == SomeInterest(k.Db(v), t)
    requires k2 == k.(routing := Put(k.routing, t, k.Row(t).value.CheckInterest(v, interested)))
    ensures k2.Sound(v, iset{}) && forall u :: u != t ==> k2.Row(u) == k.Row(u)
  {
    var row := k.Row(t).value;
    var row2 := row.CheckInterest(v, interested);
    assert k.RowOk(v, iset{t}, t, row);
    assert k2.RowShape(t, row2);
    forall w | !row2.lapsed && w in k2.vifs && !Resyncing(k2.Db(w)) ensures k2.Coherent(w, t, row2) {
      if w != v {
        assert k.Coherent(w, t, row);
      }
    }
    assert iset{t} - iset{t} == iset{};
    PutIsSound(k, k2, v, iset{t}, t, row2);
  }

  function Mapped(f: Row -> Row, row: Option<Row>): Option<Row> {
    if row.Some? then Some(f(row.value)) else None
  }

  lemma OthersHeeded(before: Tables, after: Tables, k: Tables, v: Vif, t: Tree, todo: set<Tree>)
    requires after.hpim == before.hpim && forall u :: u != t ==> after.Row(u) == before.Row(u)
    requires forall u :: u !in todo && before.Row(u).Some? ==> before.Heeded(v, u, k.Row(u))
    ensures forall u :: u !in todo && u != t && after.Row(u).Some? ==> after.Heeded(v, u, k.Row(u))
  {
    forall u | u !in todo && u != t && after.Row(u).Some? ensures after.Heeded(v, u, k.Row(u)) {
      assert before.Heeded(v, u, k.Row(u));
    }
  }

  predicate TurnsInactive(f: Row -> Row, row: Option<Row>) {
    row.Some? && !row.value.inactive && f(row.value).inactive
  }

  lemma AllTrees(r: Routing, all: set<Tree>)
    requires all == set s, g | s in r && g in r[s] :: Tree(s, g)
    ensures forall t :: t in all <==> At(r, t).Some?
  {
    forall t ensures t in all <==> At(r, t).Some? {
      assert t == Tree(t.source, t.group);
    }
  }

  /** An entry changes its state and nothing it knows. */
  lemma ChangedIsSound(k: Tables, k2: Tables, t: Tree, row: Row)
    requires k.Valid() && k.Row(t).Some?
    requires row == k.Row(t).value.(sat := row.sat).Become(row.inactive)
    requires (row.sat ==> row.originator) && (row.inactive || row.Wanted())
    requires k2 == k.(routing := Put(k.routing, t, row), removals := k2.removals)
    requires k2.removals == k.removals + if row.inactive && !k.Row(t).value.inactive then multiset{t} else multiset{}
    ensures k2.Valid() && k2.Row(t) == Some(row) && forall u :: u != t ==> k2.Row(u) == k.Row(u)
  {
    assert k.RowOk(0, iset{}, t, k.Row(t).value);
    assert k2.RowShape(t, row);
    forall w | !row.lapsed && w in k2.vifs && !Resyncing(k2.Db(w)) ensures k2.Coherent(w, t, row) {
      assert k.Coherent(w, t, k.Row(t).value);
    }
    assert iset{} - iset{t} == iset{};
    PutIsSound(k, k2, 0, iset{}, t, row);
  }

  lemma AddedIsSound(k: Tables, k2: Tables, v: Vif)
    requires k.Valid() && v !in k.vifs && k2.hpim == k.hpim && k2.vifs == k.vifs + {v} && NoneEmpty(k2.routing)
    requires forall t :: k2.Row(t) == if k.Row(t).Some? then Some(k.Row(t).value.Add(v)) else None
    requires forall t :: t in k2.removals <==>
               t in k.removals || (k.Row(t).Some? && !k.Row(t).value.inactive && k.Row(t).value.Add(v).inactive)
    ensures k2.Valid()
  {
    forall t | k2.Row(t).Some? ensures k2.RowOk(0, iset{}, t, k2.Row(t).value) {
      var row, row2 := k.Row(t).value, k2.Row(t).value;
      assert k.RowOk(0, iset{}, t, row);
      AddedRow(row, v);
      assert k2.RowShape(t, row2);
      forall w | !row2.lapsed && w in k2.vifs && !Resyncing(k2.Db(w)) ensures k2.Coherent(w, t, row2) {
        if w != v {
          assert k.Coherent(w, t, row);
        }
      }
    }
    forall t, w | w in k2.hpim && Brings(k2.hpim[w], t) ensures k2.Row(t).Some? {
      assert k.Row(t).Some?;
    }
  }

  lemma AddedRow(row: Row, v: Vif)
    requires v !in row.ifs && v !in row.upstream && (row.inactive || row.Wanted())
    ensures var row2 := row.Add(v);
            && row2.ifs == row.ifs + {v} && row2.upstream.Keys == row.upstream.Keys + {v}
            && row2.sat == row.sat && row2.originator == row.originator
            && (row2.inactive || row2.Wanted()) && (row2.inactive ==> row.inactive)
            && row2.Upstream(v) == None && row2.Interest(v) == false
            && forall w :: w != v ==> row2.Upstream(w) == row.Upstream(w) && row2.Interest(w) == row.Interest(w)
  {
    var row2 := row.Add(v);
    if row.Wanted() && !row.sat {
      var w :| w in row.upstream && row.upstream[w].Some?;
      assert w in row2.upstream && row2.upstream[w].Some?;
    }
  }

  lemma RemovedRow(row: Row, v: Vif)
    requires v in row.ifs
    ensures var row2 := row.Remove(v);
            && row2.ifs == row.ifs - {v} && row2.upstream.Keys == row.upstream.Keys - {v}
            && row2.sat == row.sat && row2.originator == row.originator
            && (row2.inactive || row2.Wanted())
            && forall w :: w != v ==> row2.Upstream(w) == row.Upstream(w) && row2.Interest(w) == row.Interest(w)
  {
  }

  lemma RemovedIsSound(k: Tables, k2: Tables, v: Vif)
    requires k.Sound(v, Everything()) && v !in k.hpim && k2.hpim == k.hpim && k2.vifs == k.vifs - {v} && NoneEmpty(k2.routing)
    requires forall t :: k2.Row(t) == if k.Row(t).Some? then Some(k.Row(t).value.Remove(v)) else None
    requires forall t :: t in k2.removals <==>
               t in k.removals || (k.Row(t).Some? && !k.Row(t).value.inactive && k.Row(t).value.Remove(v).inactive)
    ensures k2.Valid()
  {
    forall t | k2.Row(t).Some? ensures k2.RowOk(0, iset{}, t, k2.Row(t).value) {
      var row, row2 := k.Row(t).value, k2.Row(t).value;
      assert k.RowOk(v, Everything(), t, row);
      if v in row.ifs {
        RemovedRow(row, v);
      }
      assert k2.RowShape(t, row2);
      forall w | !row2.lapsed && w in k2.vifs && !Resyncing(k2.Db(w)) ensures k2.Coherent(w, t, row2) {
        assert k.Coherent(w, t, row);
      }
    }
    forall t, w | w in k2.hpim && Brings(k2.hpim[w], t) ensures k2.Row(t).Some? {
      assert k.Row(t).Some?;
    }
  }

  lemma DroppedIsSound(k: Tables, k2: Tables, t: Tree)
    requires k.Valid() && k2 == k.(routing := Drop(k.routing, t), removals := k.removals - multiset{t})
    ensures k2.RowsOk(0, iset{}) && k2.Row(t).None? && forall u :: u != t ==> k2.Row(u) == k.Row(u)
    ensures forall u, w :: u != t && w in k2.hpim && Brings(k2.hpim[w], u) ==> k2.Row(u).Some?
  {
    DropAt(k.routing, t);
    forall u | k2.Row(u).Some? ensures k2.RowOk(0, iset{}, u, k2.Row(u).value) {
      assert k.RowOk(0, iset{}, u, k.Row(u).value);
    }
    forall u, w | u != t && w in k2.hpim && Brings(k2.hpim[w], u) ensures k2.Row(u).Some? {
      assert k.Row(u).Some?;
    }
  }

  lemma NotThereIsSound(k: Tables, k2: Tables, t: Tree)
    requires k.Valid() && k.Row(t).None? && k2 == k.(removals := k.removals - multiset{t})
    ensures k2.Valid()
  {
    forall u | k2.Row(u).Some? ensures k2.RowOk(0, iset{}, u, k2.Row(u).value) {
      assert k.RowOk(0, iset{}, u, k.Row(u).value);
    }
    forall u, w | w in k2.hpim && Brings(k2.hpim[w], u) ensures k2.Row(u).Some? {
      assert k.Row(u).Some?;
    }
  }

  class Kernel {
    var vifs: set<Vif>
    var hpim: map<Vif, Database>
    var routing: Routing
    var removals: multiset<Tree>

    ghost function View(): Tables
      reads this
    {
      Tables(vifs, hpim, routing, removals)
    }

    constructor ()
      ensures View() == Tables({}, map[], map[], multiset{}) && View().Valid()
    {
      vifs, hpim, routing, removals := {}, map[], map[], multiset{};
    }

    /** Which neighbour of a link brings the tree best, and whether any wants it; a link without HPIM
        has nobody to ask. */
    method GetTreeState(v: Vif, t: Tree) returns (interested: bool, best: Option<AssertMetric>)
      ensures BestOf(View().Db(v), t, best) && interested == SomeInterest(View().Db(v), t)
    {
      interested, best := false, None;
      if v in hpim {
        interested, best := Survey(AnswersOf(hpim[v], t), hpim[v], t);
      }
    }

    /** The neighbours of a link forget who is interested in a tree the router knows nothing about. */
    method RemoveTreeState(v: Vif, t: Tree)
      requires v in hpim
      modifies this`hpim
      ensures hpim == old(hpim)[v := Forgotten(old(hpim)[v], t)]
    {
      hpim := hpim[v := Forgotten(hpim[v], t)];
    }

    /** An entry changes; one that becomes Inactive has its removal started. */
    method Update(t: Tree, row: Row)
      requires View().Row(t).Some?
      modifies this`routing, this`removals
      ensures routing == Put(old(routing), t, row)
      ensures removals == old(removals) + if row.inactive && !At(old(routing), t).value.inactive then multiset{t} else multiset{}
    {
      if row.inactive && !routing[t.source][t.group].inactive {
        removals := removals + multiset{t};
      }
      routing := Put(routing, t, row);
    }

    method AskEverybody(t: Tree) returns (upstream: map<Vif, Option<AssertMetric>>, interest: map<Vif, bool>)
      ensures upstream.Keys == interest.Keys == hpim.Keys
      ensures forall w :: w in hpim ==> BestOf(hpim[w], t, upstream[w]) && interest[w] == SomeInterest(hpim[w], t)
    {
      upstream, interest := map[], map[];
      var todo := hpim.Keys;
      while todo != {}
        invariant todo <= hpim.Keys && upstream.Keys == interest.Keys == hpim.Keys - todo
        invariant forall w :: w in upstream ==> BestOf(hpim[w], t, upstream[w]) && interest[w] == SomeInterest(hpim[w], t)
      {
        var w :| w in todo;
        var interested, best := GetTreeState(w, t);
        upstream, interest := upstream[w := best], interest[w := interested];
        todo := todo - {w};
      }
    }

    /** The entry of a tree that somebody brings, with what the neighbours of every link say. */
    method CreateEntry(t: Tree, near: Near, ghost v: Vif, ghost open: iset<Tree>)
      requires View().RowsOk(v, open) && View().Row(t).None?
      requires near.Hears(t) || exists w :: w in hpim && Brings(hpim[w], t)
      modifies this`routing
      ensures View().RowsOk(v, open - iset{t})
      ensures old(View()).Complete(v, open) ==> View().Complete(v, open - iset{t})
      ensures View().Row(t).Some? && !View().Row(t).value.inactive
      ensures forall w :: w in vifs ==> View().Coherent(w, t, View().Row(t).value)
      ensures forall u :: u != t ==> View().Row(u) == old(View()).Row(u)
    {
      ghost var k := View();
      var upstream, interest := AskEverybody(t);
      var row := Row(vifs, upstream, interest, t.source in near.direct, near.Hears(t), false, false).Checked();
      routing := Put(routing, t, row);
      CreatedIsSound(k, View(), v, open, t, row);
    }

    /** What the neighbours of a link say about a tree reaches its entry; a tree that is new and
        that somebody brings gets one. */
    method CheckTree(v: Vif, t: Tree, near: Near, ghost open: iset<Tree>) returns (known: bool)
      requires View().Sound(v, open)
      modifies this`routing, this`removals
      ensures View().Sound(v, open - iset{t}) && known == View().Row(t).Some?
      ensures known <==> old(View()).Row(t).Some? || Brings(View().Db(v), t)
      ensures known && v in vifs ==> View().Heeded(v, t, old(View()).Row(t))
      ensures forall u :: u != t ==> View().Row(u) == old(View()).Row(u)
    {
      var interested, best := GetTreeState(v, t);
      BestBrings(View().Db(v), t, best);
      known := true;
      if best.Some? && At(routing, t).None? {
        CreateEntry(t, near, v, open);
      } else if At(routing, t).Some? {
        ghost var k := View();
        Update(t, routing[t.source][t.group].CheckInterface(v, best, interested));
        CheckedIsSound(k, View(), v, open, t, best, interested);
        assert k.RowOk(v, open, t, k.Row(t).value);
        if v in vifs {
          CheckedIsHeeded(k, View(), v, t, best, interested);
        }
      } else {
        UnknownIsSound(View(), v, open, t);
        known := false;
      }
    }

    /** All trees that somebody on the link said something about, or that there is an entry for. */
    method KnownTrees(v: Vif) returns (known: set<Tree>)
      ensures forall t :: t in known <==> View().Row(t).Some? || exists n :: n in View().Db(v) && t in Mentioned(View().Db(v)[n])
    {
      var db := if v in hpim then hpim[v] else map[];
      known := (set s, g | s in routing && g in routing[s] :: Tree(s, g)) + (set n, t | n in db && t in Mentioned(db[n]) :: t);
      forall t ensures View().Row(t).Some? <==> t in set s, g | s in routing && g in routing[s] :: Tree(s, g) {
        assert t == Tree(t.source, t.group);
      }
      assert db == View().Db(v);
    }

    /** A neighbour got synchronised or is gone, or HPIM was enabled or disabled on the link. */
    method RecheckAllTrees(v: Vif, near: Near)
      requires View().Sound(v, Everything())
      modifies this`routing, this`removals
      ensures View().Valid()
      ensures forall t :: View().Row(t).Some? && v in vifs ==> View().Heeded(v, t, old(View()).Row(t))
    {
      var todo := KnownTrees(v);
      ghost var k := View();
      OnlyKnownIsOpen(k, v, iset t | t in todo);
      while todo != {}
        invariant Rechecked(k, v, todo)
      {
        var t :| t in todo;
        RecheckTree(v, t, near, k, todo);
        todo := todo - {t};
      }
      assert (iset t | t in todo) == iset{};
      OpenMore(View(), v, 0, iset{});
    }

    /** All trees but those of `todo` have been rechecked. */
    ghost predicate Rechecked(k: Tables, v: Vif, todo: set<Tree>)
      reads this
    {
      && View().Sound(v, iset t | t in todo) && hpim == k.hpim && vifs == k.vifs
      && (forall t :: t in todo ==> View().Row(t) == k.Row(t))
      && (forall t :: t !in todo && View().Row(t).Some? && v in vifs ==> View().Heeded(v, t, k.Row(t)))
    }

    method RecheckTree(v: Vif, t: Tree, near: Near, ghost k: Tables, ghost todo: set<Tree>)
      requires Rechecked(k, v, todo) && t in todo
      modifies this`routing, this`removals
      ensures Rechecked(k, v, todo - {t})
    {
      ghost var before := View();
      var _ := CheckTree(v, t, near, iset u | u in todo);
      assert (iset u | u in todo) - iset{t} == iset u | u in todo - {t};
      if v in vifs {
        OthersHeeded(before, View(), k, v, t, todo);
      }
    }

    // ----- What the neighbours send -----

    /** Somebody's upstream state of a tree changed. */
    method RecvUpstreamMsg(v: Vif, t: Tree, near: Near)
      requires View().Sound(v, if v in hpim then iset{t} else iset{})
      modifies this`routing, this`removals, this`hpim
      ensures View().Valid()
      ensures hpim == ForgottenUnless(old(hpim), v, t, View().Row(t).Some?)
      ensures v in old(hpim) && View().Row(t).Some? ==> View().Heeded(v, t, old(View()).Row(t))
      ensures forall u :: u != t ==> View().Row(u) == old(View()).Row(u)
    {
      if v in hpim {
        var known := CheckTree(v, t, near, iset{t});
        assert iset{t} - iset{t} == iset{};
        if !known {
          ForgottenIsSound(View(), v, iset{}, v, t);
          RemoveTreeState(v, t);
        }
      }
      OpenMore(View(), v, 0, iset{});
    }

    /** Somebody's interest in a tree changed; nobody's upstream state did. */
    method RecvInterestMsg(v: Vif, t: Tree)
      requires View().Sound(v, if v in hpim then iset{t} else iset{}) && (v in hpim ==> View().BestKept(v, t))
      modifies this`routing, this`hpim
      ensures View().Valid()
      ensures hpim == ForgottenUnless(old(hpim), v, t, View().Row(t).Some?)
      ensures v in old(hpim) && View().Row(t).Some? ==> View().HeededInterest(v, t, old(View()).Row(t))
      ensures forall u :: u != t ==> View().Row(u) == old(View()).Row(u)
    {
      if v in hpim {
        if At(routing, t).None? {
          UnknownIsSound(View(), v, iset{t}, t);
          assert iset{t} - iset{t} == iset{};
          ForgottenIsSound(View(), v, iset{}, v, t);
          RemoveTreeState(v, t);
        } else {
          var interested, _ := GetTreeState(v, t);
          ghost var k := View();
          routing := Put(routing, t, routing[t.source][t.group].CheckInterest(v, interested));
          InterestIsSound(k, View(), v, t, interested);
        }
      }
      OpenMore(View(), v, 0, iset{});
    }

    /** A message of neighbour `n` was let through: it is stored, and the table hears of the tree. */
    method ReceiveReliable(v: Vif, n: Ip, t: Tree, kind: Kind, near: Near)
      requires View().Valid() && v in hpim && n in hpim[v]
      modifies this`hpim, this`routing, this`removals
      ensures View().Valid()
      ensures var db := With(old(hpim)[v], n, old(hpim)[v][n].Apply(t, kind));
              hpim == ForgottenUnless(old(hpim)[v := db], v, t, View().Row(t).Some?)
      ensures View().Row(t).Some? ==>
                if InterestOnly(old(hpim)[v][n], t, kind) then View().HeededInterest(v, t, old(View()).Row(t))
                else View().Heeded(v, t, old(View()).Row(t))
      ensures forall u :: u != t ==> View().Row(u) == old(View()).Row(u)
    {
      var onlyInterest := InterestOnly(hpim[v][n], t, kind);
      Store(v, n, t, kind);
      if onlyInterest {
        RecvInterestMsg(v, t);
      } else {
        RecvUpstreamMsg(v, t, near);
      }
    }

    method Store(v: Vif, n: Ip, t: Tree, kind: Kind)
      requires View().Valid() && v in hpim && n in hpim[v]
      modifies this`hpim
      ensures hpim == old(hpim)[v := With(old(hpim)[v], n, old(hpim)[v][n].Apply(t, kind))]
      ensures View().Sound(v, iset{t})
      ensures InterestOnly(old(hpim)[v][n], t, kind) ==> View().BestKept(v, t)
    {
      ghost var k := View();
      hpim := hpim[v := With(hpim[v], n, hpim[v][n].Apply(t, kind))];
      StoredIsSound(k, View(), v, n, t, kind);
    }

    // ----- Neighbours come and go -----

    /** A neighbour that is new, or has to be synchronised anew: what it said does not count. */
    method Resynchronize(v: Vif, n: Ip, nb: Nb)
      requires View().Valid() && v in hpim && nb.state != Synced
      modifies this`hpim
      ensures View().Valid() && hpim == old(hpim)[v := With(old(hpim)[v], n, nb)]
    {
      ghost var k := View();
      hpim := hpim[v := With(hpim[v], n, nb)];
      UnheardIsSound(k, View(), v, n);
    }

    /** A neighbour got synchronised. */
    method SetSynced(v: Vif, n: Ip, nb: Nb, near: Near)
      requires View().Valid() && v in hpim && nb.state == Synced
      modifies this`hpim, this`routing, this`removals
      ensures View().Valid() && hpim == old(hpim)[v := With(old(hpim)[v], n, nb)]
      ensures forall t :: View().Row(t).Some? ==> View().Heeded(v, t, old(View()).Row(t))
    {
      ghost var k := View();
      hpim := hpim[v := With(hpim[v], n, nb)];
      HeardIsSound(k, View(), v, Everything());
      RecheckAllTrees(v, near);
    }

    method RemoveNeighbor(v: Vif, n: Ip, near: Near)
      requires View().Valid() && v in hpim
      modifies this`hpim, this`routing, this`removals
      ensures View().Valid() && hpim == old(hpim)[v := old(hpim)[v] - {n}]
      ensures forall t :: View().Row(t).Some? ==> View().Heeded(v, t, old(View()).Row(t))
    {
      ghost var k := View();
      hpim := hpim[v := hpim[v] - {n}];
      HeardIsSound(k, View(), v, Everything());
      RecheckAllTrees(v, near);
    }

    // ----- Routes, sources, interfaces -----

    /** The unicast route to the source of a tree changed. */
    method NetworkUpdate(t: Tree, near: Near, moved: bool)
      requires View().Valid()
      modifies this`routing, this`removals
      ensures View().Valid()
      ensures View().Row(t) == if old(View()).Row(t).None? then None
                else Some(old(View()).Row(t).value.Rerouted(t.source in near.direct, t.source in near.routed, moved))
      ensures forall u :: u != t ==> View().Row(u) == old(View()).Row(u)
    {
      if At(routing, t).Some? {
        var row := routing[t.source][t.group];
        ChangeState(t, row.Rerouted(t.source in near.direct, t.source in near.routed, moved));
      }
    }

    /** A source on one of the links is heard, or was not heard for too long. */
    method SetSourceActive(t: Tree, running: bool)
      requires View().Valid() && View().Row(t).Some? && View().Row(t).value.originator
      modifies this`routing, this`removals
      ensures View().Valid() && View().Row(t) == Some(old(View()).Row(t).value.(sat := running).Checked())
      ensures forall u :: u != t ==> View().Row(u) == old(View()).Row(u)
    {
      ChangeState(t, routing[t.source][t.group].(sat := running).Checked());
    }

    method ChangeState(t: Tree, row: Row)
      requires View().Valid() && View().Row(t).Some?
      requires var was := View().Row(t).value;
               && row == was.(sat := row.sat).Become(row.inactive)
               && (row.sat ==> row.originator) && (row.inactive || row.Wanted())
      modifies this`routing, this`removals
      ensures View().Valid() && View().Row(t) == Some(row)
      ensures forall u :: u != t ==> View().Row(u) == old(View()).Row(u)
    {
      ghost var k := View();
      Update(t, row);
      ChangedIsSound(k, View(), t, row);
    }

    /** Data of a source that is directly connected arrives. */
    method ReceiveData(t: Tree, near: Near)
      requires View().Valid()
      modifies this`routing
      ensures View().Valid() && (near.Hears(t) ==> View().Row(t).Some?)
      ensures forall u :: u != t ==> View().Row(u) == old(View()).Row(u)
    {
      if At(routing, t).None? && t.source in near.direct && t.source in near.routed {
        CreateEntry(t, near, 0, iset{});
        assert iset{} - iset{t} == iset{};
      }
    }

    method UpdateAll(f: Row -> Row)
      requires NoneEmpty(routing)
      modifies this`routing, this`removals
      ensures NoneEmpty(routing)
      ensures forall t :: View().Row(t) == Mapped(f, old(View()).Row(t))
      ensures forall t :: t in removals <==> t in old(removals) || TurnsInactive(f, old(View()).Row(t))
    {
      var todo := set s, g | s in routing && g in routing[s] :: Tree(s, g);
      AllTrees(routing, todo);
      while todo != {}
        invariant NoneEmpty(routing)
        invariant forall t :: t in todo ==> old(View()).Row(t).Some?
        invariant forall t :: View().Row(t) == if t in todo then old(View()).Row(t) else Mapped(f, old(View()).Row(t))
        invariant forall t :: t in removals <==> t in old(removals) || (t !in todo && TurnsInactive(f, old(View()).Row(t)))
      {
        var t :| t in todo;
        assert View().Row(t).Some?;
        PutAt(routing, t, f(routing[t.source][t.group]));
        Update(t, f(routing[t.source][t.group]));
        todo := todo - {t};
      }
    }

    method CreateVirtualInterface(v: Vif)
      requires View().Valid() && v !in vifs
      modifies this`vifs, this`routing, this`removals
      ensures View().Valid() && vifs == old(vifs) + {v}
    {
      ghost var k := View();
      vifs := vifs + {v};
      UpdateAll((row: Row) => row.Add(v));
      AddedIsSound(k, View(), v);
    }

    method CreateHpimInterface(v: Vif, near: Near)
      requires View().Valid()
      modifies this
      ensures View().Valid() && v in hpim && v in vifs
      ensures v in old(hpim) ==> View() == old(View())
      ensures v !in old(hpim) ==> hpim == old(hpim)[v := map[]]
    {
      if v in hpim { return; }
      if v !in vifs {
        CreateVirtualInterface(v);
      }
      ghost var k := View();
      hpim := hpim[v := map[]];
      HeardIsSound(k, View(), v, Everything());
      RecheckAllTrees(v, near);
    }

    /** HPIM is disabled on a link; without local members to look after, the interface goes. */
    method RemoveHpimInterface(v: Vif, membership: bool, near: Near)
      requires View().Valid() && v in hpim
      modifies this
      ensures View().Valid() && hpim == old(hpim) - {v}
      ensures vifs == if membership then old(vifs) else old(vifs) - {v}
    {
      ghost var k := View();
      hpim := hpim - {v};
      HeardIsSound(k, View(), v, Everything());
      if membership {
        RecheckAllTrees(v, near);
      } else {
        RemoveVirtualInterface(v);
      }
    }

    method RemoveVirtualInterface(v: Vif)
      requires View().Sound(v, Everything()) && v !in hpim
      modifies this`vifs, this`routing, this`removals
      ensures View().Valid() && vifs == old(vifs) - {v}
    {
      ghost var k := View();
      vifs := vifs - {v};
      UpdateAll((row: Row) => row.Remove(v));
      RemovedIsSound(k, View(), v);
    }

    // ----- Removal -----

    /** Whether some synchronised neighbour still brings the tree. */
    method SomebodyBrings(t: Tree) returns (found: bool)
      ensures found <==> exists w :: w in hpim && Brings(hpim[w], t)
    {
      found := false;
      var todo := hpim.Keys;
      while todo != {} && !found
        invariant todo <= hpim.Keys
        invariant found ==> exists w :: w in hpim && Brings(hpim[w], t)
        invariant !found ==> forall w :: w in hpim && w !in todo ==> !Brings(hpim[w], t)
      {
        var w :| w in todo;
        found := LinkBrings(w, t);
        todo := todo - {w};
      }
    }

    method LinkBrings(w: Vif, t: Tree) returns (found: bool)
      requires w in hpim
      ensures found == Brings(hpim[w], t)
    {
      found := false;
      var todo := hpim[w].Keys;
      while todo != {} && !found
        invariant todo <= hpim[w].Keys
        invariant found ==> Brings(hpim[w], t)
        invariant !found ==> forall n :: n in hpim[w] && n !in todo ==> hpim[w][n].TreeState(t).1.None?
      {
        var n :| n in todo;
        var (_, upstream) := hpim[w][n].TreeState(t);
        found := upstream.Some?;
        todo := todo - {n};
      }
    }

    /** The removal that an entry started by becoming Inactive gets its turn. The tree stays only if
        somebody still brings it, and then in a new entry that is not Inactive and knows everything
        the neighbours said meanwhile. */
    method RemoveMulticastRoute(t: Tree, near: Near)
      requires View().Valid() && t in removals
      modifies this`hpim, this`routing, this`removals
      ensures View().Valid() && removals == old(removals) - multiset{t}
      ensures View().Row(t).Some? <==> exists w :: w in hpim && Brings(hpim[w], t)
      ensures View().Row(t).Some? ==>
                !View().Row(t).value.inactive && forall w :: w in vifs ==> View().Coherent(w, t, View().Row(t).value)
      ensures forall u :: u != t ==> View().Row(u) == old(View()).Row(u)
    {
      ghost var k := View();
      removals := removals - multiset{t};
      if At(routing, t).Some? {
        routing := Drop(routing, t);
        DroppedIsSound(k, View(), t);
        Recreate(t, near);
      } else {
        NotThereIsSound(k, View(), t);
      }
    }

    method Recreate(t: Tree, near: Near)
      requires View().RowsOk(0, iset{}) && View().Row(t).None?
      requires forall u, w :: u != t && w in hpim && Brings(hpim[w], u) ==> View().Row(u).Some?
      modifies this`hpim, this`routing
      ensures View().Valid()
      ensures View().Row(t).Some? <==> exists w :: w in hpim && Brings(hpim[w], t)
      ensures View().Row(t).Some? ==>
                !View().Row(t).value.inactive && forall w :: w in vifs ==> View().Coherent(w, t, View().Row(t).value)
      ensures forall u :: u != t ==> View().Row(u) == old(View()).Row(u)
    {
      var found := SomebodyBrings(t);
      if found {
        CreateEntry(t, near, 0, iset{});
        assert iset{} - iset{t} == iset{};
      } else {
        ForgetEverywhere(t);
      }
    }

    method ForgetEverywhere(t: Tree)
      requires View().Valid() && View().Row(t).None?
      modifies this`hpim
      ensures View().Valid()
    {
      var todo := hpim.Keys;
      while todo != {}
        invariant todo <= hpim.Keys && View().Valid()
      {
        var w :| w in todo;
        ForgottenIsSound(View(), 0, iset{}, w, t);
        RemoveTreeState(w, t);
        todo := todo - {w};
      }
    }
  }
}
