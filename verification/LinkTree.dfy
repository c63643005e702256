/** All trees of a router together: what they say on a link, one entry after the other, against what
    the router's snapshots of the link say. The two differ for a tree exactly while it is announced
    by an entry that was removed, and the entry in its place, if any, has said nothing there. */
module LinkTree {
  import opened Types
  import opened Metrics
  import opened TreeSpec
  import opened TreeEntry
  import N = NeighborSpec
  import L = Link
  import T = LinkTable

  // ----- What is said on a link -----

  /** One of the router's trees says something, or an interface comes up, with neighbours that have
      heard nothing yet. */
  datatype Event = Says(tree: Tree, out: Out) | ComesUp(vif: Vif)

  /** What an interface's table of announced trees becomes when one tree says `o`. */
  function Tabled(table: map<Tree, Metric>, o: Out, i: Vif, t: Tree): map<Tree, Metric> {
    if o.vif != i || Asks(o) then table
    else
      var m := Heard(o, i, Get(table, t));
      if m.Some? then table[t := m.value] else table - {t}
  }

  /** The table of link `i` after all of it. */
  function TableAfter(events: seq<Event>, i: Vif): map<Tree, Metric> {
    if events == [] then map[]
    else
      var before := TableAfter(events[..|events| - 1], i);
      match events[|events| - 1]
      case Says(t, o) => Tabled(before, o, i, t)
      case ComesUp(v) => if v == i then map[] else before
  }

  /** The part of it that concerns one tree. */
  function Of(events: seq<Event>, t: Tree): seq<Out> {
    if events == [] then []
    else
      Of(events[..|events| - 1], t) +
      match events[|events| - 1]
      case Says(u, o) => if u == t then [o] else []
      case ComesUp(v) => [Closed(v)]
  }

  lemma TabledIsHeard(table: map<Tree, Metric>, o: Out, i: Vif, u: Tree, t: Tree)
    ensures Get(Tabled(table, o, i, u), t) == if u == t then Heard(o, i, Get(table, t)) else Get(table, t)
  {
  }

  /** The table has of every tree what a neighbour holds that heard everything. */
  lemma {:induction false} TableIsReplay(events: seq<Event>, i: Vif, t: Tree)
    ensures Get(TableAfter(events, i), t) == Announced(Of(events, t), i)
  {
    if events != [] {
      var before := events[..|events| - 1];
      TableIsReplay(before, i, t);
      match events[|events| - 1]
      case Says(u, o) =>
        TabledIsHeard(TableAfter(before, i), o, i, u, t);
        SaidOne(Of(before, t), o);
        assert u != t ==> Of(events, t) == Of(before, t);
      case ComesUp(v) => SaidOne(Of(before, t), Closed(v));
    }
  }

  /** What a tree sends on the link is what the router of the link model does. */
  function Sends(r: L.Router, at: Ip, t: Tree, o: Out, clock: nat): L.Router {
    match o
    case IamUpstream(_, m) => L.AfterAnnounce(r, at, t, Some(m), clock).0
    case IamNoLongerUpstream(_) => L.AfterAnnounce(r, at, t, None, clock).0
    case Interest(_, to) => L.AfterSignal(r, at, t, true, to, clock).0
    case NoInterest(_, to) => L.AfterSignal(r, at, t, false, to, clock).0
    case _ => r
  }

  function Played(r: L.Router, at: Ip, events: seq<Event>, i: Vif, clock: nat): L.Router {
    if events == [] then r
    else
      var q := Played(r, at, events[..|events| - 1], i, clock);
      match events[|events| - 1]
      case Says(t, o) => if o.vif == i then Sends(q, at, t, o, clock) else q
      case ComesUp(_) => q
  }

  predicate ComesOrGoes(e: Event, i: Vif) {
    match e
    case Says(_, o) => o.vif == i && (o.Opened? || o.Closed?)
    case ComesUp(v) => v == i
  }

  ghost predicate StaysUp(events: seq<Event>, i: Vif) {
    forall n :: 0 <= n < |events| ==> !ComesOrGoes(events[n], i)
  }

  lemma SendingIsAnnouncing(r: L.Router, at: Ip, table: map<Tree, Metric>, i: Vif, t: Tree, o: Out, clock: nat)
    requires r.table == table && o.vif == i && !o.Opened? && !o.Closed?
    ensures Sends(r, at, t, o, clock).table == Tabled(table, o, i, t)
  {
  }

  /** While the interface stays up, the table of the router in the link model is that of the link. */
  lemma {:induction false} PlayedTable(r: L.Router, at: Ip, before: seq<Event>, events: seq<Event>, i: Vif, clock: nat)
    requires r.table == TableAfter(before, i) && StaysUp(events, i)
    ensures Played(r, at, events, i, clock).table == TableAfter(before + events, i)
  {
    if events == [] {
      assert before + events == before;
    } else {
      var n := |events| - 1;
      PlayedTable(r, at, before, events[..n], i, clock);
      assert (before + events)[..|before| + n] == before + events[..n];
      match events[n]
      case Says(t, o) =>
        if o.vif == i {
          SendingIsAnnouncing(Played(r, at, events[..n], i, clock), at, TableAfter(before + events[..n], i), i, t, o, clock);
        }
      case ComesUp(_) =>
    }
  }

  // ----- One entry after the other -----

  /** The log says something on the link about what is announced there. */
  ghost predicate Mentions(log: seq<Out>, i: Vif) {
    exists k :: 0 <= k < |log| && log[k].vif == i && !Asks(log[k])
  }

  lemma MoreMentions(log: seq<Out>, more: seq<Out>, i: Vif)
    ensures Mentions(log + more, i) <==> Mentions(log, i) || Mentions(more, i)
  {
    if Mentions(log, i) {
      var k :| 0 <= k < |log| && log[k].vif == i && !Asks(log[k]);
      assert (log + more)[k] == log[k];
    }
    if Mentions(more, i) {
      var k :| 0 <= k < |more| && more[k].vif == i && !Asks(more[k]);
      assert (log + more)[|log| + k] == more[k];
    }
  }

  /** Who heard an earlier entry and then this one holds what this one said, if it said anything. */
  lemma {:induction false} AnnouncedAfter(past: seq<Out>, log: seq<Out>, i: Vif)
    ensures Announced(past + log, i) == if Mentions(log, i) then Announced(log, i) else Announced(past, i)
    ensures !Mentions(log, i) ==> Announced(log, i) == None
  {
    if log == [] {
      assert past + log == past;
    } else {
      var n := |log| - 1;
      AnnouncedAfter(past, log[..n], i);
      MoreMentions(log[..n], [log[n]], i);
      assert log == log[..n] + [log[n]];
      assert (past + log)[..|past| + n] == past + log[..n];
      assert Mentions([log[n]], i) <==> log[n].vif == i && !Asks(log[n]) by {
        assert [log[n]][0] == log[n];
      }
    }
  }

  /** A new entry mentions the links on which it announces the tree, and no others. */
  lemma {:induction false} OffersAreMentioned(log: seq<Out>, i: Vif)
    requires OnlyOffers(log)
    ensures Mentions(log, i) <==> Announced(log, i).Some?
  {
    if log != [] {
      var n := |log| - 1;
      OffersAreMentioned(log[..n], i);
      MoreMentions(log[..n], [log[n]], i);
      assert log == log[..n] + [log[n]];
      assert Mentions([log[n]], i) <==> log[n].vif == i && !Asks(log[n]) by {
        assert [log[n]][0] == log[n];
      }
    }
  }

  // ----- All trees -----

  /** The entries a router has, and what the entries before them said. */
  datatype Trees = Trees(entries: map<Tree, Entry>, past: map<Tree, seq<Out>>) {

    ghost predicate Valid() {
      forall t :: t in entries ==> entries[t].Valid()
    }

    function Past(t: Tree): seq<Out> {
      GetOr(past, t, [])
    }

    function Log(t: Tree): seq<Out> {
      if t in entries then entries[t].log else []
    }

    function Said(t: Tree): seq<Out> {
      Past(t) + Log(t)
    }

    /** What the entry of the tree, if there is one, puts into a snapshot of link `i`. */
    function SyncState(t: Tree, i: Vif): Option<Metric> {
      if t in entries && i in entries[t].ifs then Sync(entries[t].ifs[i], entries[t].links.Connected(i)) else None
    }

    function Snapshot(i: Vif): map<Tree, Metric> {
      map t | t in entries && SyncState(t, i).Some? :: SyncState(t, i).value
    }

    /** An entry that was removed announced the tree on the link, and nothing was said there since. */
    ghost predicate Orphaned(t: Tree, i: Vif) {
      Announced(Past(t), i).Some? && !Mentions(Log(t), i)
    }

    /** The entry is removed without a word, and another may be made at once. */
    function Removed(t: Tree, again: Option<Entry>): Trees {
      Trees(if again.Some? then entries[t := again.value] else entries - {t}, past[t := Said(t)])
    }

    /** New neighbours know nothing of what was announced on the link before. */
    function CameUp(i: Vif): Trees {
      this.(past := map t | t in past :: past[t] + [Closed(i)])
    }
  }

  /** Neighbours that heard everything hold of a tree what a snapshot would tell them, exactly unless
      it is orphaned on the link. */
  lemma ReplayIsSnapshot(k: Trees, t: Tree, i: Vif)
    requires k.Valid()
    ensures Announced(k.Said(t), i) == k.SyncState(t, i) <==> !k.Orphaned(t, i)
  {
    AnnouncedAfter(k.Past(t), k.Log(t), i);
    if t in k.entries && i in k.entries[t].ifs {
      assert k.entries[t].IfOk(i);
    }
  }

  ghost predicate New(e: Entry) {
    e.Valid() && OnlyOffers(e.log)
  }

  lemma NewMentions(e: Entry, i: Vif)
    requires New(e)
    ensures Mentions(e.log, i) <==> i in e.ifs && Sync(e.ifs[i], e.links.Connected(i)).Some?
  {
    OffersAreMentioned(e.log, i);
    if i in e.ifs {
      assert e.IfOk(i);
    }
  }

  /** After an entry was removed a snapshot of the link agrees with what its neighbours hold exactly
      if the tree was not announced there, or the entry made in its place announces it there. */
  lemma RemovalExactlyIf(k: Trees, t: Tree, again: Option<Entry>, i: Vif)
    requires k.Valid() && (again.Some? ==> New(again.value))
    ensures var after := k.Removed(t, again);
            Announced(after.Said(t), i) == after.SyncState(t, i) <==>
              Announced(k.Said(t), i).None? || after.SyncState(t, i).Some?
  {
    var after := k.Removed(t, again);
    ReplayIsSnapshot(after, t, i);
    if again.Some? {
      NewMentions(again.value, i);
    }
  }

  /** An Inactive entry that nobody revived leaves no orphan. */
  lemma InactiveLeavesNoOrphan(k: Trees, t: Tree, again: Option<Entry>, i: Vif)
    requires k.Valid() && t in k.entries && k.entries[t].state.Inactive? && !k.Orphaned(t, i)
    ensures !k.Removed(t, again).Orphaned(t, i)
  {
    ReplayIsSnapshot(k, t, i);
    if i in k.entries[t].ifs {
      assert k.entries[t].IfOk(i);
    }
  }

  // ----- Whole histories -----

  /** An entry is made or runs a handler; an entry is removed, and perhaps made again; an interface
      comes up, before there are tree interfaces on it. */
  datatype Step = Act(tree: Tree, entry: Entry) | Remove(tree: Tree, again: Option<Entry>) | ComeUp(vif: Vif)

  ghost predicate Enabled(k: Trees, s: Step) {
    match s
    case Act(t, e) => e.Valid() && k.Log(t) <= e.log && (t !in k.entries ==> New(e))
    case Remove(t, again) => t in k.entries && (again.Some? ==> New(again.value))
    case ComeUp(i) => forall t :: t in k.entries ==> i !in k.entries[t].ifs
  }

  function Next(k: Trees, s: Step): Trees {
    match s
    case Act(t, e) => k.(entries := k.entries[t := e])
    case Remove(t, again) => k.Removed(t, again)
    case ComeUp(i) => k.CameUp(i)
  }

  function Tell(t: Tree, said: seq<Out>): seq<Event> {
    if said == [] then [] else Tell(t, said[..|said| - 1]) + [Says(t, said[|said| - 1])]
  }

  function Uttered(k: Trees, s: Step): seq<Event> {
    match s
    case Act(t, e) => Tell(t, if |k.Log(t)| <= |e.log| then e.log[|k.Log(t)|..] else [])
    case Remove(t, again) => Tell(t, if again.Some? then again.value.log else [])
    case ComeUp(i) => [ComesUp(i)]
  }

  lemma {:induction false} OfTell(events: seq<Event>, t: Tree, said: seq<Out>, u: Tree)
    ensures Of(events + Tell(t, said), u) == Of(events, u) + if u == t then said else []
    decreases |said|
  {
    if said == [] {
      assert events + Tell(t, said) == events;
    } else {
      var n := |said| - 1;
      OfTell(events, t, said[..n], u);
      var before := events + Tell(t, said[..n]);
      assert events + Tell(t, said) == before + [Says(t, said[n])];
      assert (before + [Says(t, said[n])])[..|before|] == before;
      assert said == said[..n] + [said[n]];
    }
  }

  /** What was said on all links is, for those who listen, what the trees said. */
  ghost predicate Spoken(events: seq<Event>, k: Trees) {
    forall t, i :: Announced(Of(events, t), i) == Announced(k.Said(t), i)
  }

  lemma SpokenStep(k: Trees, events: seq<Event>, s: Step)
    requires k.Valid() && Spoken(events, k) && Enabled(k, s)
    ensures Next(k, s).Valid() && Spoken(events + Uttered(k, s), Next(k, s))
  {
    forall t, i ensures Announced(Of(events + Uttered(k, s), t), i) == Announced(Next(k, s).Said(t), i) {
      assert Announced(Of(events, t), i) == Announced(k.Said(t), i);
      TalkStep(k, events, s, t, i);
    }
  }

  lemma TalkStep(k: Trees, events: seq<Event>, s: Step, t: Tree, i: Vif)
    requires k.Valid() && Enabled(k, s) && Announced(Of(events, t), i) == Announced(k.Said(t), i)
    ensures Announced(Of(events + Uttered(k, s), t), i) == Announced(Next(k, s).Said(t), i)
  {
    match s
    case Act(u, e) => ActTalk(k, events, u, e, t, i);
    case Remove(u, again) => RemoveTalk(k, events, u, again, t, i);
    case ComeUp(v) => CameUpTalk(k, events, v, t, i);
  }

  lemma ActTalk(k: Trees, events: seq<Event>, u: Tree, e: Entry, t: Tree, i: Vif)
    requires k.Log(u) <= e.log && Announced(Of(events, t), i) == Announced(k.Said(t), i)
    ensures Announced(Of(events + Uttered(k, Act(u, e)), t), i) == Announced(Next(k, Act(u, e)).Said(t), i)
  {
    ActSaid(k, u, e, t);
    MoreTalk(k, Next(k, Act(u, e)), events, u, e.log[|k.Log(u)|..], t, i);
  }

  lemma ActSaid(k: Trees, u: Tree, e: Entry, t: Tree)
    requires k.Log(u) <= e.log
    ensures Next(k, Act(u, e)).Said(u) == k.Said(u) + e.log[|k.Log(u)|..]
    ensures t != u ==> Next(k, Act(u, e)).Said(t) == k.Said(t)
    ensures Uttered(k, Act(u, e)) == Tell(u, e.log[|k.Log(u)|..])
  {
    assert e.log == k.Log(u) + e.log[|k.Log(u)|..];
  }

  lemma RemoveTalk(k: Trees, events: seq<Event>, u: Tree, again: Option<Entry>, t: Tree, i: Vif)
    requires Announced(Of(events, t), i) == Announced(k.Said(t), i)
    ensures Announced(Of(events + Uttered(k, Remove(u, again)), t), i) == Announced(Next(k, Remove(u, again)).Said(t), i)
  {
    MoreTalk(k, Next(k, Remove(u, again)), events, u, if again.Some? then again.value.log else [], t, i);
  }

  lemma MoreTalk(k: Trees, k2: Trees, events: seq<Event>, u: Tree, said: seq<Out>, t: Tree, i: Vif)
    requires Announced(Of(events, t), i) == Announced(k.Said(t), i)
    requires k2.Said(u) == k.Said(u) + said && (t != u ==> k2.Said(t) == k.Said(t))
    ensures Announced(Of(events + Tell(u, said), t), i) == Announced(k2.Said(t), i)
  {
    OfTell(events, u, said, t);
    if u == t {
      TalkGoesOn(Of(events, t), k.Said(t), said, i);
    } else {
      assert Of(events, t) + [] == Of(events, t);
    }
  }

  lemma TalkGoesOn(a: seq<Out>, b: seq<Out>, more: seq<Out>, i: Vif)
    requires Announced(a, i) == Announced(b, i)
    ensures Announced(a + more, i) == Announced(b + more, i)
  {
    AnnouncedAfter(a, more, i);
    AnnouncedAfter(b, more, i);
  }

  lemma CameUpTalk(k: Trees, events: seq<Event>, v: Vif, t: Tree, i: Vif)
    requires k.Valid() && Enabled(k, ComeUp(v)) && Announced(Of(events, t), i) == Announced(k.Said(t), i)
    ensures Announced(Of(events + [ComesUp(v)], t), i) == Announced(k.CameUp(v).Said(t), i)
  {
    assert (events + [ComesUp(v)])[..|events|] == events;
    SaidOne(Of(events, t), Closed(v));
    CameUpSaid(k, v, t, i);
  }

  lemma CameUpSaid(k: Trees, v: Vif, t: Tree, i: Vif)
    requires k.Valid() && Enabled(k, ComeUp(v))
    ensures Announced(k.CameUp(v).Said(t), i) == if i == v then None else Announced(k.Said(t), i)
  {
    var past, log := k.Past(t), k.Log(t);
    SaidOne(past, Closed(v));
    AnnouncedAfter(past, log, i);
    AnnouncedAfter(past + [Closed(v)], log, i);
    assert k.CameUp(v).Said(t) == (if t in k.past then past + [Closed(v)] else past) + log;
  }

  ghost predicate Run(ks: seq<Trees>, steps: seq<Step>) {
    && |ks| == |steps| + 1 && ks[0] == Trees(map[], map[])
    && forall n :: 0 <= n < |steps| ==> Enabled(ks[n], steps[n]) && ks[n + 1] == Next(ks[n], steps[n])
  }

  function Events(ks: seq<Trees>, steps: seq<Step>, n: nat): seq<Event>
    requires n <= |steps| < |ks|
  {
    if n == 0 then [] else Events(ks, steps, n - 1) + Uttered(ks[n - 1], steps[n - 1])
  }

  lemma {:induction false} RunIsSpoken(ks: seq<Trees>, steps: seq<Step>, n: nat)
    requires Run(ks, steps) && n <= |steps|
    ensures ks[n].Valid() && Spoken(Events(ks, steps, n), ks[n])
  {
    if n > 0 {
      RunIsSpoken(ks, steps, n - 1);
      SpokenStep(ks[n - 1], Events(ks, steps, n - 1), steps[n - 1]);
    } else {
      assert forall t :: ks[0].Said(t) == [];
    }
  }

  /** Over every history of a router, however many entries its trees had: what the table of a link,
      as its neighbours heard it, has of a tree is what a snapshot says, exactly unless the tree is
      orphaned there. */
  lemma SnapshotsListTheTable(ks: seq<Trees>, steps: seq<Step>, n: nat, i: Vif, t: Tree)
    requires Run(ks, steps) && n <= |steps|
    ensures Get(TableAfter(Events(ks, steps, n), i), t) == Get(ks[n].Snapshot(i), t) <==> !ks[n].Orphaned(t, i)
  {
    RunIsSpoken(ks, steps, n);
    TableIsReplay(Events(ks, steps, n), i, t);
    ReplayIsSnapshot(ks[n], t, i);
    assert Announced(Of(Events(ks, steps, n), t), i) == Announced(ks[n].Said(t), i);
  }

  /** How a tree gets orphaned: only by the removal of an entry that announced it, unless the next
      one does at once. It stays so until an entry says something about it on the link, or the
      interface comes up again. */
  ghost predicate Orphans(k: Trees, s: Step, t: Tree, i: Vif) {
    match s
    case Act(u, e) => k.Orphaned(t, i) && !(u == t && Mentions(e.log, i))
    case Remove(u, again) =>
      if u != t then k.Orphaned(t, i)
      else Announced(k.Said(t), i).Some? && Next(k, s).SyncState(t, i).None?
    case ComeUp(v) => v != i && k.Orphaned(t, i)
  }

  lemma OrphanedExactlyIf(k: Trees, s: Step, t: Tree, i: Vif)
    requires k.Valid() && Enabled(k, s)
    ensures Next(k, s).Orphaned(t, i) <==> Orphans(k, s, t, i)
  {
    match s
    case Act(u, e) =>
      assert e.log == k.Log(u) + e.log[|k.Log(u)|..];
      MoreMentions(k.Log(u), e.log[|k.Log(u)|..], i);
    case Remove(u, again) =>
      if again.Some? {
        NewMentions(again.value, i);
      }
    case ComeUp(v) => SaidOne(k.Past(t), Closed(v));
  }

  // ----- What this means for the link -----

  /** A router of the link model that takes a snapshot contradicts its table about a tree exactly if
      the tree is orphaned on the link. */
  lemma SnapshotContradicts(l: L.Link, at: Ip, p: N.Packet, env: N.Env, t: Tree, ks: seq<Trees>, steps: seq<Step>, n: nat, i: Vif)
    requires Run(ks, steps) && n <= |steps|
    requires at in l.routers && l.routers[at].table == TableAfter(Events(ks, steps, n), i) && T.Snapshots(l, at, p, env)
    requires L.Lists(env.listing, ks[n].Snapshot(i))
    ensures T.Contradicts(l, L.Deliver(at, p, env), at, t) <==> ks[n].Orphaned(t, i)
  {
    SnapshotsListTheTable(ks, steps, n, i, t);
  }

  /** An entry that tells its interest on a link announces nothing there itself; so the tree is in the
      table of the link exactly if it was orphaned there when the entry spoke. */
  lemma AskingExactlyIf(k: Trees, t: Tree, n: nat)
    requires k.Valid() && t in k.entries && n < |k.Log(t)| && Asks(k.Log(t)[n])
    ensures var i, e := k.Log(t)[n].vif, k.entries[t];
            Announced(k.Past(t) + e.log[..n], i).Some? <==>
              k.(entries := k.entries[t := e.(log := e.log[..n])]).Orphaned(t, i)
  {
    var e := k.entries[t];
    AnnouncedAfter(k.Past(t), e.log[..n], e.log[n].vif);
    assert Announced(e.log[..n], e.log[n].vif) == None;
  }
}
