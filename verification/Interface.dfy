/** An interface, its neighbours and its reliable transmissions as the objects the router updates
    in place, each method proved against the functions of ReliableSpec, NeighborSpec and Link. */
module Interface {
  import opened Types
  import opened ReliableSpec
  import opened NeighborSpec
  import opened Metrics
  import opened TreeDatabase
  import Link
  import R = ReliableRuns

  /** What one tree keeps in flight on an interface. */
  class ReliableMessageTransmission {
    const interface: InterfaceHPIM
    const tree: Tree
    var msgMulticast: Option<Msg>
    var msgUnicast: map<Ip, Msg>
    var neighborsThatAcked: set<Ip>
    var numberOfFailedAcks: map<Ip, nat>
    var timerArmed: bool

    ghost function View(): Rmt
      reads this
    {
      Rmt(msgMulticast, msgUnicast, neighborsThatAcked, numberOfFailedAcks, timerArmed)
    }

    /** Whether this is what the interface keeps for its tree. */
    ghost predicate Registered()
      reads interface
    {
      interface.Wired() && tree in interface.buffer && interface.buffer[tree] == this
    }

    constructor (interface: InterfaceHPIM, tree: Tree)
      ensures this.interface == interface && this.tree == tree && View() == IDLE
    {
      this.interface := interface;
      this.tree := tree;
      msgMulticast := None;
      msgUnicast := map[];
      neighborsThatAcked := {};
      numberOfFailedAcks := map[];
      timerArmed := false;
    }

    method CancelAllMessages()
      modifies this
      ensures View() == old(View()).CancelAll()
    {
      timerArmed := false;
      neighborsThatAcked := {};
      numberOfFailedAcks := map[];
      msgMulticast := None;
      msgUnicast := map[];
    }

    method CancelMessageMulticast()
      modifies this
      ensures View() == old(View()).CancelMulticast()
    {
      neighborsThatAcked := {};
      msgMulticast := None;
      if |msgUnicast| == 0 {
        timerArmed := false;
        numberOfFailedAcks := map[];
      } else {
        var haveAcked := numberOfFailedAcks.Keys - msgUnicast.Keys;
        ghost var failures := numberOfFailedAcks;
        while haveAcked != {}
          invariant haveAcked <= failures.Keys - msgUnicast.Keys
          invariant numberOfFailedAcks == map n | n in failures && (n in haveAcked || n in msgUnicast) :: failures[n]
          invariant View() == old(View()).(multicast := None, acked := {}, failures := numberOfFailedAcks)
          decreases haveAcked
        {
          var n :| n in haveAcked;
          numberOfFailedAcks := numberOfFailedAcks - {n};
          haveAcked := haveAcked - {n};
        }
      }
    }

    method CancelMessageUnicast(ip: Ip)
      modifies this
      ensures View() == old(View()).CancelUnicast(ip)
    {
      msgUnicast := msgUnicast - {ip};
      numberOfFailedAcks := numberOfFailedAcks - {ip};
      if msgMulticast.None? && |msgUnicast| == 0 {
        timerArmed := false;
      }
    }

    method SendMulticast(kind: Kind, clock: nat)
      requires interface.Valid() && Registered()
      modifies interface, interface.buffer.Values
      ensures interface.Valid() && interface.SameObjects()
      ensures interface.view == old(interface.view).SendMulticast(tree, kind, clock)
      ensures interface.outbox == old(interface.outbox) + [Reliable(interface.ip, None, Msg(interface.view.Now(), tree, kind))]
    {
      ghost var before := interface.view;
      CancelAllMessages();
      var stamp := NextNumber(clock);
      ghost var ticked := interface.view;
      SetMulticast(Msg(stamp, tree, kind));
      MulticastInSteps(before, tree, kind, clock, ticked);
    }

    method SendUnicast(kind: Kind, dst: Ip, clock: nat)
      requires interface.Valid() && Registered()
      modifies interface, interface.buffer.Values
      ensures interface.Valid() && interface.SameObjects()
      ensures interface.view == old(interface.view).SendUnicast(tree, kind, dst, clock)
      ensures interface.outbox == old(interface.outbox) + [Reliable(interface.ip, Some(dst), Msg(interface.view.Now(), tree, kind))]
    {
      ghost var before := interface.view;
      CancelMessageUnicast(dst);
      var stamp := NextNumber(clock);
      ghost var ticked := interface.view;
      AddUnicast(dst, Msg(stamp, tree, kind));
      UnicastInSteps(before, tree, kind, dst, clock, ticked);
    }

    /** A new number, after this tree has cancelled what the new message supersedes. */
    method NextNumber(clock: nat) returns (stamp: Stamp)
      requires Registered() && interface.Fits({tree})
      modifies interface, interface.buffer.Values
      ensures interface.Valid() && interface.SameObjects() && interface.outbox == old(interface.outbox)
      ensures interface.view == old(interface.view).(buffer := old(interface.view).buffer[tree := old(View())]).Tick(clock)
      ensures stamp == interface.view.Now()
    {
      interface.Refresh(tree);
      stamp := interface.GetSequenceNumber(clock);
    }

    method SetMulticast(msg: Msg)
      requires interface.Valid() && Registered()
      modifies this, interface`outbox, interface`view
      ensures interface.Valid()
      ensures interface.view
              == old(interface.view).(buffer := old(interface.view).buffer[tree := old(View()).(multicast := Some(msg), armed := true)])
      ensures interface.outbox == old(interface.outbox) + [Reliable(interface.ip, None, msg)]
    {
      msgMulticast := Some(msg);
      timerArmed := true;
      interface.Send(Reliable(interface.ip, None, msg));
      interface.Refresh(tree);
    }

    method AddUnicast(dst: Ip, msg: Msg)
      requires interface.Valid() && Registered()
      modifies this, interface`outbox, interface`view
      ensures interface.Valid()
      ensures interface.view == old(interface.view).(buffer := old(interface.view).buffer[tree := old(View()).Unicast(dst, msg)])
      ensures interface.outbox == old(interface.outbox) + [Reliable(interface.ip, Some(dst), msg)]
    {
      msgUnicast := msgUnicast[dst := msg];
      timerArmed := true;
      interface.Send(Reliable(interface.ip, Some(dst), msg));
      if msgMulticast.Some? {
        neighborsThatAcked := neighborsThatAcked + {dst};
      }
      interface.Refresh(tree);
    }

    method ReceiveAck(neighborIp: Ip, stamp: Stamp)
      modifies this
      ensures View() == old(View()).ReceiveAck(interface.neighbors.Keys, neighborIp, stamp)
    {
      if msgMulticast.Some? && AtMost(msgMulticast.value.stamp, stamp) {
        neighborsThatAcked := neighborsThatAcked + {neighborIp};
        if interface.neighbors.Keys <= neighborsThatAcked {
          CancelMessageMulticast();
        }
      }
      if neighborIp in msgUnicast && AtMost(msgUnicast[neighborIp].stamp, stamp) {
        CancelMessageUnicast(neighborIp);
      }
    }

    /** The packets that put what is in flight on the wire again. */
    ghost function InFlight(): set<Packet>
      reads this
    {
      ToAll(interface.ip, msgMulticast) + PacketsTo(interface.ip, msgUnicast, msgUnicast.Keys)
    }

    /** The timer fired: everything still in flight is sent again, and who lets too many
        retransmissions go by unacknowledged is no neighbour any more. */
    method RetransmissionTimeout() returns (ghost resent: seq<Packet>)
      requires interface.Valid() && Registered()
      modifies this, interface`outbox, interface`neighbors, interface`view, interface.neighbors.Values
      ensures interface.Valid()
      ensures interface.AsRouter() == Link.Keep(old(interface.AsRouter()), old(interface.view).Expire(tree))
      ensures interface.outbox == old(interface.outbox) + resent && Link.ToSet(resent) == InFlight()
    {
      resent := ResendAndCheck();
      KeptRecords(old(interface.AsRouter()), interface.AsRouter());
    }

    method ResendAndCheck() returns (ghost resent: seq<Packet>)
      requires interface.Valid() && Registered()
      modifies this, interface`outbox, interface`neighbors, interface`view, interface.neighbors.Values
      ensures interface.Valid()
      ensures interface.view == old(interface.view).Expire(tree)
      ensures interface.KeepsRecords()
      ensures interface.outbox == old(interface.outbox) + resent && Link.ToSet(resent) == InFlight()
    {
      resent := Resend();
      DropFailedNeighbors();
    }

    /** The second half: who failed too often is no neighbour any more. */
    method DropFailedNeighbors()
      requires Registered() && interface.Fits({tree})
      requires View() == interface.view.buffer[tree].Expire(interface.view.neighbors)
      modifies this, interface`neighbors, interface`view, interface.neighbors.Values
      ensures interface.Valid() && interface.view == old(interface.view).Expire(tree)
      ensures msgMulticast == old(msgMulticast) && msgUnicast == old(msgUnicast)
      ensures interface.KeepsRecords()
    {
      CheckNeighborFailures();
      interface.Expired(tree);
    }

    /** The first half: what is in flight afterwards is on the wire again, and who owes an ack is charged. */
    method Resend() returns (ghost resent: seq<Packet>)
      modifies this, interface`outbox
      ensures View() == old(View()).Expire(interface.neighbors.Keys)
      ensures interface.outbox == old(interface.outbox) + resent && Link.ToSet(resent) == InFlight()
    {
      timerArmed := false;
      ghost var fired := View();
      var notAcked := Recheck();
      ghost var rechecked := View();
      notAcked, resent := SendAgain(notAcked);
      ghost var failures := numberOfFailedAcks;
      if msgMulticast.Some? || |msgUnicast| > 0 {
        timerArmed := true;
      }
      CountFailures(notAcked);
      ExpiryInParts(fired, interface.neighbors.Keys, rechecked, notAcked, failures, View());
    }

    method SendAgain(notAcked: set<Ip>) returns (owing: set<Ip>, ghost resent: seq<Packet>)
      requires !timerArmed
      modifies this, interface`outbox
      ensures View() == old(View()).(unicast := msgUnicast, failures := numberOfFailedAcks)
      ensures msgUnicast == map n | n in old(msgUnicast) && n in interface.neighbors :: old(msgUnicast)[n]
      ensures numberOfFailedAcks == old(numberOfFailedAcks) - (old(msgUnicast).Keys - interface.neighbors.Keys)
      ensures owing == notAcked + msgUnicast.Keys
      ensures interface.outbox == old(interface.outbox) + resent && Link.ToSet(resent) == InFlight()
    {
      ghost var first: seq<Packet> := [];
      if msgMulticast.Some? {
        interface.Send(Reliable(interface.ip, None, msgMulticast.value));
        first := [Reliable(interface.ip, None, msgMulticast.value)];
      }
      assert Link.ToSet(first) == ToAll(interface.ip, msgMulticast);
      ghost var again;
      owing, again := ResendUnicasts(notAcked);
      resent := first + again;
      assert Link.ToSet(resent) == Link.ToSet(first) + Link.ToSet(again);
    }

    /** Cancels the multicast message should everybody have acked it; says who has not. */
    method Recheck() returns (notAcked: set<Ip>)
      requires !timerArmed
      modifies this
      ensures View() == if old(msgMulticast).Some? && interface.neighbors.Keys <= old(neighborsThatAcked)
                        then old(View()).CancelMulticast() else old(View())
      ensures notAcked == if msgMulticast.Some? then interface.neighbors.Keys - neighborsThatAcked else {}
      ensures !timerArmed && msgUnicast == old(msgUnicast)
    {
      notAcked := {};
      if msgMulticast.Some? && interface.neighbors.Keys <= neighborsThatAcked {
        CancelMessageMulticast();
      } else if msgMulticast.Some? {
        notAcked := interface.neighbors.Keys - neighborsThatAcked;
      }
    }

    /** Sends again what is in flight for neighbours, and cancels what is for anybody else. */
    method ResendUnicasts(notAcked: set<Ip>) returns (owing: set<Ip>, ghost resent: seq<Packet>)
      requires !timerArmed
      modifies this, interface`outbox
      ensures View() == old(View()).(unicast := msgUnicast, failures := numberOfFailedAcks)
      ensures msgUnicast == map n | n in old(msgUnicast) && n in interface.neighbors :: old(msgUnicast)[n]
      ensures numberOfFailedAcks == old(numberOfFailedAcks) - (old(msgUnicast).Keys - interface.neighbors.Keys)
      ensures owing == notAcked + msgUnicast.Keys
      ensures interface.outbox == old(interface.outbox) + resent
      ensures Link.ToSet(resent) == PacketsTo(interface.ip, msgUnicast, msgUnicast.Keys)
    {
      owing, resent := notAcked, [];
      var copy := msgUnicast;
      ghost var failures, done, gone := numberOfFailedAcks, {}, {};
      var todo := copy.Keys;
      while todo != {}
        invariant todo <= copy.Keys && !timerArmed
        invariant done == (copy.Keys - todo) * interface.neighbors.Keys && gone == copy.Keys - todo - interface.neighbors.Keys
        invariant View() == old(View()).(unicast := copy - gone, failures := failures - gone)
        invariant owing == notAcked + done
        invariant interface.outbox == old(interface.outbox) + resent
        invariant Link.ToSet(resent) == PacketsTo(interface.ip, copy, done)
        decreases todo
      {
        var dst :| dst in todo;
        if dst in interface.neighbors {
          OneMorePacket(interface.ip, copy, done, resent, dst);
          interface.Send(Reliable(interface.ip, Some(dst), copy[dst]));
          resent := resent + [Reliable(interface.ip, Some(dst), copy[dst])];
          owing := owing + {dst};
          done := done + {dst};
        } else {
          OneMoreGone(copy, failures, gone, dst);
          CancelMessageUnicast(dst);
          gone := gone + {dst};
        }
        todo := todo - {dst};
      }
      assert done == msgUnicast.Keys;
      assert PacketsTo(interface.ip, copy, done) == PacketsTo(interface.ip, msgUnicast, msgUnicast.Keys);
    }

    method CountFailures(notAcked: set<Ip>)
      modifies this
      ensures View() == old(View()).(failures := numberOfFailedAcks)
      ensures numberOfFailedAcks == Charge(old(numberOfFailedAcks), notAcked)
    {
      ghost var failures := numberOfFailedAcks;
      var todo := notAcked;
      while todo != {}
        invariant todo <= notAcked
        invariant View() == old(View()).(failures := numberOfFailedAcks)
        invariant numberOfFailedAcks == Charge(failures, notAcked - todo)
        decreases todo
      {
        var n :| n in todo;
        numberOfFailedAcks := numberOfFailedAcks[n := GetOr(numberOfFailedAcks, n, 0) + 1];
        todo := todo - {n};
      }
    }

    method CheckNeighborFailures()
      requires interface.Wired()
      modifies this, interface`neighbors, interface.neighbors.Values
      ensures interface.Wired() && View() == old(View()).DropFailed()
      ensures interface.neighbors == old(interface.neighbors) - old(View()).Failed()
      ensures forall n :: n in interface.neighbors ==> interface.neighbors[n].View() == old(interface.neighbors[n].View())
    {
      var copy := numberOfFailedAcks;
      ghost var failed, was := View().Failed(), interface.neighbors;
      var todo := copy.Keys;
      while todo != {}
        invariant todo <= copy.Keys && interface.Wired()
        invariant View() == old(View()).(failures := copy - (failed - todo))
        invariant interface.neighbors == was - (failed - todo)
        invariant forall n :: n in was && n !in failed - todo ==> was[n].View() == old(was[n].View())
        decreases todo
      {
        var n :| n in todo;
        OneMoreFailed(copy, was, failed, todo, n);
        if copy[n] > ACK_FAILURE_THRESHOLD {
          ForceNeighborFailure(n);
        }
        todo := todo - {n};
      }
      assert failed - todo == failed;
    }

    method ForceNeighborFailure(neighborIp: Ip)
      requires interface.Wired()
      modifies this, interface`neighbors, interface.neighbors.Values
      ensures interface.Wired() && View() == old(View()).(failures := old(numberOfFailedAcks) - {neighborIp})
      ensures interface.neighbors == old(interface.neighbors) - {neighborIp}
      ensures forall n :: n in interface.neighbors ==> interface.neighbors[n].View() == old(interface.neighbors[n].View())
    {
      var _ := interface.ForceNeighborFailure(neighborIp);
      numberOfFailedAcks := numberOfFailedAcks - {neighborIp};
    }

    /** The lowest number in flight for this tree, less one: the most its CheckpointSN may be. */
    method GetSequenceNumber(ghost bootTime: nat) returns (c: Option<Stamp>)
      requires forall m :: R.Carries(View(), m) ==> m.stamp.bootTime == bootTime && m.stamp.sn >= 1
      ensures c == None <==> View().Idle()
      ensures c.Some? ==> c.value.bootTime == bootTime && IsBehind(c.value.sn, View()) && Touches(c.value.sn, View())
    {
      c := None;
      if msgMulticast.Some? {
        assert R.Carries(View(), msgMulticast.value);
        c := Some(msgMulticast.value.stamp.(sn := msgMulticast.value.stamp.sn - 1));
      }
      var todo := msgUnicast.Keys;
      while todo != {}
        invariant todo <= msgUnicast.Keys
        invariant c == None <==> msgMulticast == None && todo == msgUnicast.Keys
        invariant c.Some? ==> c.value.bootTime == bootTime && Touches(c.value.sn, View())
        invariant c.Some? && msgMulticast.Some? ==> c.value.sn < msgMulticast.value.stamp.sn
        invariant c.Some? ==> forall n :: n in msgUnicast && n !in todo ==> c.value.sn < msgUnicast[n].stamp.sn
        decreases todo
      {
        var n :| n in todo;
        var msg := msgUnicast[n];
        assert R.Carries(View(), msg);
        if c == None || c.value.bootTime < msg.stamp.bootTime ||
           (c.value.bootTime == msg.stamp.bootTime && c.value.sn > msg.stamp.sn - 1) {
          c := Some(msg.stamp.(sn := msg.stamp.sn - 1));
        }
        todo := todo - {n};
      }
    }
  }

  lemma OneMoreFailed<V, W>(copy: map<Ip, V>, was: map<Ip, W>, failed: set<Ip>, todo: set<Ip>, n: Ip)
    requires n in todo
    ensures n in failed ==> copy - (failed - todo) - {n} == copy - (failed - (todo - {n}))
    ensures n in failed ==> was - (failed - todo) - {n} == was - (failed - (todo - {n}))
    ensures n !in failed ==> failed - todo == failed - (todo - {n})
  {
  }

  lemma OneMoreGone<V, W>(u: map<Ip, V>, f: map<Ip, W>, gone: set<Ip>, n: Ip)
    ensures u - gone - {n} == u - (gone + {n}) && f - gone - {n} == f - (gone + {n})
  {
  }

  ghost function ToAll(ip: Ip, m: Option<Msg>): set<Packet> {
    if m.Some? then {Reliable(ip, None, m.value)} else {}
  }

  /** The unicast packets of `u` to the routers in `who`. */
  ghost function PacketsTo(ip: Ip, u: map<Ip, Msg>, who: set<Ip>): set<Packet> {
    set n | n in u && n in who :: Reliable(ip, Some(n), u[n])
  }

  lemma OneMorePacket(ip: Ip, u: map<Ip, Msg>, who: set<Ip>, sent: seq<Packet>, n: Ip)
    requires n in u && Link.ToSet(sent) == PacketsTo(ip, u, who)
    ensures Link.ToSet(sent + [Reliable(ip, Some(n), u[n])]) == PacketsTo(ip, u, who + {n})
  {
    var p := Reliable(ip, Some(n), u[n]);
    assert Link.ToSet(sent + [p]) == Link.ToSet(sent) + {p};
    forall q | q in PacketsTo(ip, u, who) + {p} ensures q in PacketsTo(ip, u, who + {n}) {
      var m :| m in u && m in who + {n} && q == Reliable(ip, Some(m), u[m]);
    }
  }

  lemma MulticastInSteps(before: Iface, t: Tree, kind: Kind, clock: nat, ticked: Iface)
    requires ticked == before.(buffer := before.buffer[t := IDLE]).Tick(clock)
    ensures var r := ticked.Of(t).(multicast := Some(Msg(ticked.Now(), t, kind)), armed := true);
            ticked.(buffer := ticked.buffer[t := r]) == before.SendMulticast(t, kind, clock)
  {
  }

  lemma UnicastInSteps(before: Iface, t: Tree, kind: Kind, dst: Ip, clock: nat, ticked: Iface)
    requires ticked == before.(buffer := before.buffer[t := before.Of(t).CancelUnicast(dst)]).Tick(clock)
    ensures var r := ticked.Of(t).Unicast(dst, Msg(ticked.Now(), t, kind));
            ticked.(buffer := ticked.buffer[t := r]) == before.SendUnicast(t, kind, dst, clock)
  {
  }

  /** Creating the object for a tree that keeps nothing in flight changes no later send. */
  lemma RegisteringIsSilent(i: Iface, t: Tree, kind: Kind, dst: Ip, clock: nat)
    ensures var j := i.(buffer := i.buffer[t := i.Of(t)]);
            && j.SendMulticast(t, kind, clock) == i.SendMulticast(t, kind, clock)
            && j.SendUnicast(t, kind, dst, clock) == i.SendUnicast(t, kind, dst, clock)
  {
    var j := i.(buffer := i.buffer[t := i.Of(t)]);
    assert j.buffer[t := j.Of(t).CancelAll()] == i.buffer[t := i.Of(t).CancelAll()];
    assert j.buffer[t := j.Of(t).CancelUnicast(dst)] == i.buffer[t := i.Of(t).CancelUnicast(dst)];
  }

  /** The parts of an expiry, put together. */
  lemma ExpiryInParts(b: Rmt, neighbors: set<Ip>, c: Rmt, owing: set<Ip>, failures: map<Ip, nat>, r: Rmt)
    requires c == if b.multicast.Some? && neighbors <= b.acked then b.CancelMulticast() else b
    requires r.multicast == c.multicast && r.acked == c.acked && r.armed == (r.multicast.Some? || r.unicast != map[])
    requires r.unicast == map n | n in b.unicast && n in neighbors :: b.unicast[n]
    requires owing == (if c.multicast.Some? then neighbors - c.acked else {}) + r.unicast.Keys
    requires failures == c.failures - (b.unicast.Keys - neighbors)
    requires r.failures == Charge(failures, owing)
    ensures r == b.Expire(neighbors)
  {
    var e := b.Expire(neighbors);
    var done := b.multicast.Some? && neighbors <= b.acked;
    assert c.multicast.Some? == (b.multicast.Some? && !done);
    assert e.multicast == r.multicast && e.acked == r.acked && e.unicast == r.unicast;
    assert owing == (if b.multicast.Some? && !done then neighbors - b.acked else {}) + e.unicast.Keys;
    assert e.failures == r.failures;
  }

  lemma OneRecord(before: map<Ip, Nb>, after: map<Ip, Nb>, ip: Ip)
    requires ip in after && after.Keys == before.Keys + {ip}
    requires forall n :: n in before && n != ip ==> after[n] == before[n]
    ensures after == before[ip := after[ip]]
  {
  }

  lemma HandledPeer(r: Link.Router, at: Ip, p: Packet, env: Env)
    ensures Link.Handle(r, at, p, env).end.peer == p.src
  {
  }

  lemma KeptRecords(r: Link.Router, q: Link.Router)
    requires q.table == r.table && q.born == r.born && q.iface.neighbors == q.nbs.Keys <= r.nbs.Keys
    requires forall n :: n in q.nbs ==> q.nbs[n] == r.nbs[n]
    ensures q == Link.Keep(r, q.iface)
  {
  }

  /** The router as it is without a neighbour. */
  function Without(r: Link.Router, n: Ip): Link.Router {
    Link.Keep(r, r.iface.(neighbors := r.iface.neighbors - {n}))
  }

  predicate IsBehind(c: int, r: Rmt) {
    && (r.multicast.Some? ==> c < r.multicast.value.stamp.sn)
    && (forall n :: n in r.unicast ==> c < r.unicast[n].stamp.sn)
  }

  predicate Touches(c: int, r: Rmt) {
    || (r.multicast.Some? && r.multicast.value.stamp.sn == c + 1)
    || (exists n :: n in r.unicast && r.unicast[n].stamp.sn == c + 1)
  }

  lemma TreeFacts(i: Iface, t: Tree)
    requires R.Inv(i) && t in i.buffer
    ensures forall m :: R.Carries(i.buffer[t], m) ==> m.stamp.bootTime == i.bootTime && m.stamp.sn >= 1
  {
    assert R.TreeInv(i, t, i.buffer[t]);
  }

  /** Just below the lowest number in flight, or at the last one issued, is the CheckpointSN. */
  lemma LowestIsCheckpoint(i: Iface, c: int)
    requires c <= i.sequencer && forall t :: t in i.buffer ==> IsBehind(c, i.buffer[t])
    requires c == i.sequencer || exists t :: t in i.buffer && Touches(c, i.buffer[t])
    ensures R.IsCheckpoint(i, c)
  {
    if c != i.sequencer {
      var t :| t in i.buffer && Touches(c, i.buffer[t]);
      var r := i.buffer[t];
      var m := if r.multicast.Some? && r.multicast.value.stamp.sn == c + 1 then r.multicast.value
               else var n :| n in r.unicast && r.unicast[n].stamp.sn == c + 1; r.unicast[n];
      assert R.Carries(r, m) && R.InFlight(i, m);
    }
  }

  /** What the handling of a reliable message asks the trees to look at. */
  datatype Notice = Nothing | InterestChanged(tree: Tree) | UpstreamChanged(tree: Tree)

  class InterfaceHPIM {
    const ip: Ip
    var timeOfBoot: nat
    var sequencer: nat
    var neighbors: map<Ip, Neighbor>
    var buffer: map<Tree, ReliableMessageTransmission>
    var outbox: seq<Packet>
    ghost var view: Iface

    ghost predicate Wired()
      reads this
    {
      && (forall t :: t in buffer ==> buffer[t].interface == this && buffer[t].tree == t)
      && (forall n :: n in neighbors ==> neighbors[n].contactInterface == this && neighbors[n].ip == n)
    }

    /** The abstract interface is the one the fields hold, but for what some trees keep in flight. */
    ghost predicate Fits(except: set<Tree>)
      reads this, buffer.Values
    {
      && Wired()
      && view.bootTime == timeOfBoot && view.sequencer == sequencer
      && view.neighbors == neighbors.Keys && view.buffer.Keys == buffer.Keys
      && forall t :: t in buffer && t !in except ==> buffer[t].View() == view.buffer[t]
    }

    ghost predicate Valid()
      reads this, buffer.Values
    {
      Fits({})
    }

    ghost function Records(): map<Ip, Nb>
      reads this, neighbors.Values
    {
      map n | n in neighbors :: neighbors[n].View()
    }

    /** The interface as a router of the link; what the router announces lives in its trees. */
    ghost function AsRouter(): Link.Router
      reads this, neighbors.Values
    {
      Link.Router(view, Records(), map[], 0)
    }

    /** The neighbours that are left are as they were. */
    twostate predicate KeepsRecords()
      reads this, neighbors.Values
    {
      && neighbors.Keys <= old(neighbors.Keys)
      && forall n :: n in neighbors ==> neighbors[n] == old(neighbors)[n] && neighbors[n].View() == old(neighbors[n].View())
    }

    twostate predicate SameObjects()
      reads this
    {
      buffer == old(buffer) && neighbors == old(neighbors)
    }

    /** Accounts for a change to what one tree keeps in flight. */
    ghost method Refresh(tree: Tree)
      requires tree in buffer && Fits({tree})
      modifies this`view
      ensures Valid() && view == old(view).(buffer := old(view).buffer[tree := buffer[tree].View()])
    {
      view := view.(buffer := view.buffer[tree := buffer[tree].View()]);
    }

    /** Accounts for the expiry of the timer of `tree`: some neighbours were declared failed. */
    ghost method Expired(tree: Tree)
      requires Wired() && tree in buffer && buffer.Keys == view.buffer.Keys
      requires view.bootTime == timeOfBoot && view.sequencer == sequencer
      requires buffer[tree].View() == view.buffer[tree].Expire(view.neighbors).DropFailed()
      requires neighbors.Keys == view.neighbors - view.buffer[tree].Expire(view.neighbors).Failed()
      requires forall t :: t in buffer && t != tree ==> buffer[t].View() == view.buffer[t]
      modifies this`view
      ensures Valid() && view == old(view).Expire(tree)
    {
      view := view.Expire(tree);
    }

    method Send(packet: Packet)
      modifies this`outbox
      ensures outbox == old(outbox) + [packet]
    {
      outbox := outbox + [packet];
    }

    method ClearReliableTransmission()
      requires Wired()
      modifies buffer.Values
      ensures forall t :: t in buffer ==> buffer[t].View() == old(buffer[t].View()).CancelAll()
    {
      var todo := buffer.Keys;
      while todo != {}
        invariant todo <= buffer.Keys
        invariant forall t :: t in buffer && t !in todo ==> buffer[t].View() == old(buffer[t].View()).CancelAll()
        decreases todo
      {
        var t :| t in todo;
        buffer[t].CancelAllMessages();
        todo := todo - {t};
      }
    }

    method GetSequenceNumber(clock: nat) returns (stamp: Stamp)
      requires Valid()
      modifies this, buffer.Values
      ensures Valid() && SameObjects() && outbox == old(outbox)
      ensures view == old(view).Tick(clock) && stamp == view.Now()
    {
      sequencer := sequencer + 1;
      if sequencer == MAX_SEQUENCE_NUMBER {
        timeOfBoot := clock;
        sequencer := 1;
        ClearReliableTransmission();
      }
      view := view.Tick(clock);
      stamp := Stamp(timeOfBoot, sequencer);
    }

    /** The largest number that is issued and behind everything in flight. */
    method GetCheckpointSn() returns (c: int)
      requires Valid() && R.Inv(view)
      ensures R.IsCheckpoint(view, c)
    {
      c := sequencer;
      var todo := buffer.Keys;
      while todo != {}
        invariant todo <= buffer.Keys && c <= view.sequencer
        invariant forall t :: t in view.buffer && t !in todo ==> IsBehind(c, view.buffer[t])
        invariant c == view.sequencer || exists t :: t in view.buffer && Touches(c, view.buffer[t])
        decreases todo
      {
        var t :| t in todo;
        TreeFacts(view, t);
        assert view.buffer[t] == buffer[t].View();
        var low := buffer[t].GetSequenceNumber(timeOfBoot);
        if low.Some? && low.value.bootTime == timeOfBoot && c > low.value.sn {
          c := low.value.sn;
        }
        todo := todo - {t};
      }
      LowestIsCheckpoint(view, c);
    }

    method GetReliableMessageTransmission(tree: Tree) returns (rmt: ReliableMessageTransmission)
      requires Valid()
      modifies this`buffer, this`view
      ensures Valid() && rmt.Registered() && rmt.interface == this && rmt.tree == tree
      ensures fresh(buffer.Values - old(buffer.Values))
      ensures view == old(view).(buffer := old(view).buffer[tree := old(view).Of(tree)])
    {
      if tree !in buffer {
        rmt := new ReliableMessageTransmission(this, tree);
        buffer := buffer[tree := rmt];
        view := view.(buffer := view.buffer[tree := IDLE]);
      }
      rmt := buffer[tree];
    }

    method NeighborStartSynchronization(neighborIp: Ip, stamp: Stamp)
      requires Valid()
      modifies this`view, buffer.Values
      ensures Valid() && SameObjects()
      ensures view == old(view).StartSynchronization(neighborIp, stamp)
    {
      var todo := buffer.Keys;
      while todo != {}
        invariant todo <= buffer.Keys && Wired() && view == old(view)
        invariant forall t :: t in todo ==> buffer[t].View() == view.buffer[t]
        invariant forall t :: t in buffer && t !in todo ==>
                    buffer[t].View() == view.buffer[t].ReceiveAck(neighbors.Keys, neighborIp, stamp)
        decreases todo
      {
        var t :| t in todo;
        buffer[t].ReceiveAck(neighborIp, stamp);
        todo := todo - {t};
      }
      view := view.StartSynchronization(neighborIp, stamp);
    }

    /** The interface and its records are as the handling of a packet with outcome `o` leaves them. */
    twostate predicate Handled(o: Outcome)
      reads this, buffer.Values, neighbors.Values
    {
      && Valid() && outbox == old(outbox) + o.out
      && view == o.end.iface
      && neighbors.Keys == old(neighbors.Keys) + {o.end.peer} && neighbors[o.end.peer].View() == o.end.nb
      && forall n :: n in old(neighbors) && n != o.end.peer ==> neighbors[n].View() == old(neighbors[n].View())
    }

    /** What the record of a neighbour never heard of starts from. */
    ghost function Stranger(neighborIp: Ip, bootTime: nat): End
      reads this
    {
      End(ip, neighborIp, view.(neighbors := view.neighbors + {neighborIp}), NewNb(bootTime, view.bootTime))
    }

    method AddNeighbor(neighborIp: Ip, bootTime: nat) returns (n: Neighbor)
      requires Valid() && neighborIp !in neighbors
      modifies this`neighbors, this`view
      ensures Valid() && neighbors == old(neighbors)[neighborIp := n] && fresh(n)
      ensures n.contactInterface == this && n.ip == neighborIp && n.Seen() == old(Stranger(neighborIp, bootTime))
    {
      n := new Neighbor(this, neighborIp, bootTime, timeOfBoot);
      neighbors := neighbors[neighborIp := n];
      view := view.(neighbors := view.neighbors + {neighborIp});
    }

    method NewNeighbor(neighborIp: Ip, bootTime: nat, env: Env)
      requires Valid() && neighborIp !in neighbors
      modifies this, buffer.Values
      ensures Handled(old(Stranger(neighborIp, bootTime)).Reset(bootTime, env))
    {
      var n := AddNeighbor(neighborIp, bootTime);
      n.NewNeighborOrAdjacencyReset(env);
    }

    /** A neighbour known by that BootTime that gives a hold time of zero takes its leave. */
    predicate TakesLeave(p: Packet, holdTime: nat)
      requires p.Hello?
      reads this, neighbors.Values
    {
      holdTime == 0 && p.src in neighbors && p.bootTime == neighbors[p.src].timeOfBoot
    }

    method ReceiveHello(p: Packet, holdTime: nat, env: Env)
      requires Valid() && p.Hello?
      modifies this, buffer.Values, neighbors.Values
      ensures if old(TakesLeave(p, holdTime))
              then Valid() && AsRouter() == Without(old(AsRouter()), p.src) && outbox == old(outbox)
              else Handled(Link.Handle(old(AsRouter()), ip, p, env))
    {
      if TakesLeave(p, holdTime) {
        LoseNeighbor(p.src);
      } else if p.src in neighbors {
        KnownHello(p, env);
      } else {
        NewNeighbor(p.src, p.bootTime, env);
      }
    }

    /** The neighbour was not heard of for its hold time, or took its leave. */
    method LoseNeighbor(neighborIp: Ip)
      requires Valid()
      modifies this`neighbors, this`view, neighbors.Values
      ensures Valid() && outbox == old(outbox)
      ensures AsRouter() == Without(old(AsRouter()), neighborIp)
    {
      var _ := ForceNeighborFailure(neighborIp);
      view := view.(neighbors := view.neighbors - {neighborIp});
      KeptRecords(old(AsRouter()), AsRouter());
    }

    method KnownHello(p: Packet, env: Env)
      requires Valid() && p.Hello? && p.src in neighbors
      modifies this, buffer.Values, neighbors.Values
      ensures Handled(old(neighbors[p.src].Seen()).ReceiveHello(p, env))
    {
      neighbors[p.src].RecvHello(p, env);
    }

    method ReceiveSync(p: Packet, env: Env)
      requires Valid() && p.Sync?
      modifies this, buffer.Values, neighbors.Values
      ensures if Link.Dropped(old(AsRouter()), p)
              then Valid() && AsRouter() == old(AsRouter()) && outbox == old(outbox)
              else Handled(Link.Handle(old(AsRouter()), ip, p, env))
    {
      if p.neighborBootTime != timeOfBoot { return; }
      if p.src in neighbors {
        KnownSync(p, env);
      } else {
        UnknownSync(p, env);
      }
    }

    method KnownSync(p: Packet, env: Env)
      requires Valid() && p.Sync? && p.src in neighbors
      modifies this, buffer.Values, neighbors.Values
      ensures Handled(old(neighbors[p.src].Seen()).ReceiveSync(p, env))
    {
      neighbors[p.src].RecvSync(p, env);
    }

    method UnknownSync(p: Packet, env: Env)
      requires Valid() && p.Sync? && p.src !in neighbors
      modifies this, buffer.Values
      ensures Handled(old(Stranger(p.src, p.bootTime)).ReceiveSync(p, env))
    {
      var n := AddNeighbor(p.src, p.bootTime);
      n.RecvSync(p, env);
    }

    /** Handles IamUpstream, IamNoLongerUpstream, Interest and NoInterest; says what the trees are told. */
    method ReceiveReliable(p: Packet, env: Env) returns (notice: Notice)
      requires Valid() && p.Reliable?
      modifies this, buffer.Values, neighbors.Values
      ensures Handled(Link.Handle(old(AsRouter()), ip, p, env))
      ensures notice == old(NoticeOf(p, env))
    {
      if p.src in neighbors {
        notice := KnownReliable(p, env);
      } else {
        NewNeighbor(p.src, p.msg.stamp.bootTime, env);
        notice := Nothing;
      }
    }

    /** A delivered message may change the best upstream neighbour unless it is about the interest
        of a neighbour that was not upstream. */
    ghost function NoticeOf(p: Packet, env: Env): Notice
      requires p.Reliable?
      reads this, neighbors.Values
    {
      if p.src !in neighbors || !End(ip, p.src, view, neighbors[p.src].View()).ReceiveReliable(p, env).delivered
      then Nothing
      else if (p.msg.kind.Interest? || p.msg.kind.NoInterest?) && p.msg.tree !in neighbors[p.src].treeMetricState
      then InterestChanged(p.msg.tree)
      else UpstreamChanged(p.msg.tree)
    }

    method KnownReliable(p: Packet, env: Env) returns (notice: Notice)
      requires Valid() && p.Reliable? && p.src in neighbors
      modifies this, buffer.Values, neighbors.Values
      ensures Handled(old(neighbors[p.src].Seen()).ReceiveReliable(p, env))
      ensures notice == old(NoticeOf(p, env))
    {
      var n := neighbors[p.src];
      var upstream := p.msg.tree in n.treeMetricState;
      var deliver := n.RecvReliablePacket(p.msg.stamp.sn, p.msg.tree, p.msg.stamp.bootTime, env);
      if !deliver { return Nothing; }
      n.Store(p.msg.tree, p.msg.kind);
      return if (p.msg.kind.Interest? || p.msg.kind.NoInterest?) && !upstream
        then InterestChanged(p.msg.tree) else UpstreamChanged(p.msg.tree);
    }

    method ReceiveAck(p: Packet, env: Env)
      requires Valid() && p.Ack?
      modifies this, buffer.Values, neighbors.Values
      ensures Handled(Link.Handle(old(AsRouter()), ip, p, env))
    {
      if p.src in neighbors {
        KnownAck(p, env);
      } else {
        NewNeighbor(p.src, p.bootTime, env);
      }
    }

    method KnownAck(p: Packet, env: Env)
      requires Valid() && p.Ack? && p.src in neighbors
      modifies this, buffer.Values, neighbors.Values
      ensures Handled(old(neighbors[p.src].Seen()).ReceiveAck(p, env))
    {
      var matches := neighbors[p.src].RecvAck(p, env);
      if matches && p.tree in buffer {
        buffer[p.tree].ReceiveAck(p.src, Stamp(p.neighborBootTime, p.sn));
        Refresh(p.tree);
      }
    }

    /** Any packet: what the interface, its records and what it sends become is what the model of the
        link says of a router. */
    method Receive(p: Packet, holdTime: nat, env: Env) returns (notice: Notice)
      requires Valid()
      modifies this, buffer.Values, neighbors.Values
      ensures Valid()
      ensures if Link.Dropped(old(AsRouter()), p) then AsRouter() == old(AsRouter()) && outbox == old(outbox)
              else if p.Hello? && old(TakesLeave(p, holdTime)) then
                AsRouter() == Without(old(AsRouter()), p.src) && outbox == old(outbox)
              else
                var o := Link.Handle(old(AsRouter()), ip, p, env);
                AsRouter() == Link.Put(old(AsRouter()), o) && outbox == old(outbox) + o.out
    {
      notice := Nothing;
      if p.Sync? && p.neighborBootTime != timeOfBoot { return; }
      if p.Hello? && TakesLeave(p, holdTime) {
        ReceiveHello(p, holdTime, env);
        return;
      }
      notice := Dispatch(p, holdTime, env);
      OneRecord(old(Records()), Records(), p.src);
    }

    method Dispatch(p: Packet, holdTime: nat, env: Env) returns (notice: Notice)
      requires Valid() && !Link.Dropped(AsRouter(), p) && (p.Hello? ==> !TakesLeave(p, holdTime))
      modifies this, buffer.Values, neighbors.Values
      ensures Handled(Link.Handle(old(AsRouter()), ip, p, env)) && Link.Handle(old(AsRouter()), ip, p, env).end.peer == p.src
    {
      notice := Nothing;
      HandledPeer(AsRouter(), ip, p, env);
      match p {
        case Sync(_, _, _, _, _, _, _, _, _, _) => ReceiveSync(p, env);
        case Hello(_, _, _) => ReceiveHello(p, holdTime, env);
        case Reliable(_, _, _) => notice := ReceiveReliable(p, env);
        case Ack(_, _, _, _, _, _, _, _) => ReceiveAck(p, env);
      }
    }

    /** The best upstream neighbour, and whether anybody is interested. */
    method GetTreeState(tree: Tree) returns (interested: bool, best: Option<AssertMetric>)
      ensures BestOf(Records(), tree, best) && interested == SomeInterest(Records(), tree)
    {
      var answers := map n | n in neighbors :: neighbors[n].GetTreeState(tree);
      interested, best := Survey(answers, Records(), tree);
    }

    method SendMulticast(tree: Tree, kind: Kind, clock: nat)
      requires Valid()
      modifies this, buffer.Values
      ensures Valid() && neighbors == old(neighbors)
      ensures view == old(view).SendMulticast(tree, kind, clock)
      ensures outbox == old(outbox) + [Reliable(ip, None, Msg(view.Now(), tree, kind))]
    {
      ghost var before := view;
      var rmt := GetReliableMessageTransmission(tree);
      rmt.SendMulticast(kind, clock);
      RegisteringIsSilent(before, tree, kind, 0, clock);
    }

    method SendUnicast(tree: Tree, kind: Kind, dst: Ip, clock: nat)
      requires Valid()
      modifies this, buffer.Values
      ensures Valid() && neighbors == old(neighbors)
      ensures view == old(view).SendUnicast(tree, kind, dst, clock)
      ensures outbox == old(outbox) + [Reliable(ip, Some(dst), Msg(view.Now(), tree, kind))]
    {
      ghost var before := view;
      var rmt := GetReliableMessageTransmission(tree);
      rmt.SendUnicast(kind, dst, clock);
      RegisteringIsSilent(before, tree, kind, dst, clock);
    }

    /** Whoever removes a neighbour has all trees rechecked. */
    method ForceNeighborFailure(neighborIp: Ip) returns (recheck: bool)
      requires Wired()
      modifies this`neighbors, neighbors.Values
      ensures recheck <==> neighborIp in old(neighbors)
      ensures Wired() && neighbors == old(neighbors) - {neighborIp}
      ensures forall n :: n in neighbors ==> neighbors[n].View() == old(neighbors[n].View())
    {
      recheck := false;
      if neighborIp in neighbors {
        neighbors[neighborIp].RemoveNeighborState();
        recheck := RemoveNeighbor(neighborIp);
      }
    }

    method RemoveNeighbor(neighborIp: Ip) returns (recheck: bool)
      modifies this`neighbors
      ensures neighbors == old(neighbors) - {neighborIp} && (recheck <==> neighborIp in old(neighbors))
    {
      if neighborIp !in neighbors { return false; }
      neighbors := neighbors - {neighborIp};
      return true;
    }
  }

  class Neighbor {
    const contactInterface: InterfaceHPIM
    const ip: Ip
    var neighborState: SyncState
    var timeOfBoot: nat
    var neighborSnapshotSn: nat
    var currentSyncSn: nat
    var syncFragmentation: nat
    var treeInterestState: map<Tree, bool>
    var treeMetricState: map<Tree, Metric>
    var lastSequenceNumber: map<Tree, nat>
    var checkpointSn: nat
    var mySnapshotBootTime: nat
    var mySnapshotSequencer: nat
    var mySnapshotMulticastRoutingTable: seq<Entry>

    ghost function View(): Nb
      reads this
    {
      Nb(neighborState, timeOfBoot, neighborSnapshotSn, currentSyncSn, syncFragmentation, treeInterestState,
         treeMetricState, lastSequenceNumber, checkpointSn, mySnapshotBootTime, mySnapshotSequencer,
         mySnapshotMulticastRoutingTable)
    }

    constructor (contactInterface: InterfaceHPIM, ip: Ip, bootTime: nat, myBootTime: nat)
      ensures this.contactInterface == contactInterface && this.ip == ip && View() == NewNb(bootTime, myBootTime)
    {
      this.contactInterface := contactInterface;
      this.ip := ip;
      neighborState := Unknown;
      timeOfBoot := bootTime;
      neighborSnapshotSn := 0;
      currentSyncSn := 0;
      syncFragmentation := 0;
      treeInterestState := map[];
      treeMetricState := map[];
      lastSequenceNumber := map[];
      checkpointSn := 0;
      mySnapshotBootTime := myBootTime;
      mySnapshotSequencer := 0;
      mySnapshotMulticastRoutingTable := [];
    }

    method RemoveNeighborState()
      modifies this
      ensures View() == old(View()).(interest := map[], upstream := map[], lastSn := map[], myTable := [])
    {
      treeInterestState := map[];
      treeMetricState := map[];
      lastSequenceNumber := map[];
      mySnapshotMulticastRoutingTable := [];
    }

    /** The end of the adjacency this object stands for. */
    ghost function Seen(): End
      reads this, contactInterface
    {
      End(contactInterface.ip, ip, contactInterface.view, View())
    }

    /** What a handler did is `o`. */
    twostate predicate Did(o: Outcome)
      reads this, contactInterface, contactInterface.buffer.Values
    {
      && contactInterface.Valid() && contactInterface.SameObjects()
      && Seen() == o.end && contactInterface.outbox == old(contactInterface.outbox) + o.out
    }

    method InstallTreeState(trees: seq<Entry>)
      modifies this
      ensures View() == old(View()).Install(trees)
    {
      for i := 0 to |trees|
        invariant View().Install(trees[i..]) == old(View()).Install(trees)
      {
        var t := trees[i];
        if GetOr(lastSequenceNumber, t.tree, 0) <= neighborSnapshotSn {
          treeMetricState := treeMetricState[t.tree := t.metric];
        }
      }
    }

    method StartSnapshot(env: Env)
      requires contactInterface.Valid()
      modifies this, contactInterface, contactInterface.buffer.Values
      ensures contactInterface.Valid() && contactInterface.SameObjects()
      ensures contactInterface.outbox == old(contactInterface.outbox)
      ensures Seen() == old(Seen()).StartSnapshot(env)
    {
      var stamp := contactInterface.GetSequenceNumber(env.clock);
      SetSnapshot(stamp, env);
      contactInterface.NeighborStartSynchronization(ip, stamp);
    }

    method SetSnapshot(stamp: Stamp, env: Env)
      modifies this
      ensures View() == old(View()).(myBootTime := stamp.bootTime, mySn := stamp.sn, myTable := env.listing,
                                     fragmentation := env.fragmentation)
    {
      mySnapshotBootTime := stamp.bootTime;
      mySnapshotSequencer := stamp.sn;
      mySnapshotMulticastRoutingTable := env.listing;
      syncFragmentation := env.fragmentation;
    }

    method ClearStoredState()
      modifies this
      ensures View() == old(View()).Forget()
    {
      treeInterestState := map[];
      treeMetricState := map[];
      lastSequenceNumber := map[];
      currentSyncSn := 0;
      neighborSnapshotSn := 0;
      checkpointSn := 0;
    }

    method SendSync(syncSn: nat, master: bool)
      modifies contactInterface`outbox
      ensures contactInterface.outbox == old(contactInterface.outbox) + [Seen().SyncPacket(syncSn, master)]
    {
      contactInterface.Send(
        Sync(contactInterface.ip, ip, mySnapshotBootTime, timeOfBoot, mySnapshotSequencer, neighborSnapshotSn, syncSn,
             Fragment(mySnapshotMulticastRoutingTable, syncFragmentation, syncSn), master,
             More(mySnapshotMulticastRoutingTable, syncFragmentation, syncSn)));
    }

    /** A snapshot of one's own, and nothing kept of what the neighbour said before. */
    method StartOver(state: SyncState, env: Env)
      requires contactInterface.Valid()
      modifies this, contactInterface, contactInterface.buffer.Values
      ensures contactInterface.Valid() && contactInterface.SameObjects()
      ensures contactInterface.outbox == old(contactInterface.outbox)
      ensures var e := old(Seen()).(nb := old(View()).(state := state)).StartSnapshot(env);
              Seen() == e.(nb := e.nb.Forget())
    {
      neighborState := state;
      StartSnapshot(env);
      ClearStoredState();
    }

    method NewNeighborOrAdjacencyReset(env: Env)
      requires contactInterface.Valid()
      modifies this, contactInterface, contactInterface.buffer.Values
      ensures Did(old(Seen()).Reset(old(timeOfBoot), env))
    {
      StartOver(Slave, env);
      SendSync(0, true);
    }

    /** Takes over the neighbour's SnapshotSN from the first Sync after a reset. */
    method Adopt(sn: nat)
      modifies this
      ensures Seen() == old(Seen()).Adopt(sn)
    {
      if currentSyncSn == 0 && neighborSnapshotSn == 0 {
        neighborSnapshotSn := sn;
      }
    }

    method FinishSync()
      modifies this
      ensures Seen() == old(Seen()).FinishSync()
    {
      neighborState := Synced;
      mySnapshotMulticastRoutingTable := [];
    }

    method MasterRecvSync(m: Packet, env: Env)
      requires m.Sync? && contactInterface.Valid()
      modifies this, contactInterface, contactInterface.buffer.Values
      ensures Did(old(Seen()).MasterSync(m, env))
    {
      Adopt(m.mySn);
      if neighborSnapshotSn > m.mySn {
        return;
      } else if neighborSnapshotSn < m.mySn {
        NewNeighborOrAdjacencyReset(env);
        return;
      }
      if m.syncSn != currentSyncSn { return; }
      if m.master && ((m.syncSn > 0 && mySnapshotSequencer == m.neighborSn) || m.syncSn == 0) {
        MasterTurn(m);
      }
    }

    /** The driven end got the Sync it is waiting for. */
    method MasterTurn(m: Packet)
      requires m.Sync? && contactInterface.Valid()
      modifies this, contactInterface`outbox
      ensures contactInterface.Valid()
      ensures var f := old(Seen()).(nb := old(View()).Install(m.trees));
              var p := f.SyncPacket(f.nb.syncSn, false);
              && contactInterface.outbox == old(contactInterface.outbox) + [p]
              && Seen() == if m.syncSn > 0 && !m.more && !p.more then f.FinishSync()
                           else f.(nb := f.nb.(syncSn := f.nb.syncSn + 1))
    {
      InstallTreeState(m.trees);
      SendSync(currentSyncSn, false);
      var more := More(mySnapshotMulticastRoutingTable, syncFragmentation, currentSyncSn);
      if m.syncSn > 0 && !m.more && !more {
        FinishSync();
      } else {
        currentSyncSn := currentSyncSn + 1;
      }
    }

    method SlaveRecvSync(m: Packet, env: Env)
      requires m.Sync? && contactInterface.Valid()
      modifies this, contactInterface, contactInterface.buffer.Values
      ensures Did(old(Seen()).SlaveSync(m, env))
    {
      Adopt(m.mySn);
      if neighborSnapshotSn > m.mySn {
        return;
      } else if neighborSnapshotSn < m.mySn {
        NewNeighborOrAdjacencyReset(env);
        return;
      }
      if m.syncSn != currentSyncSn { return; }
      SlaveTurn(m, env);
    }

    /** The driving end got a Sync with the number it is waiting for. */
    method SlaveTurn(m: Packet, env: Env)
      requires m.Sync? && contactInterface.Valid()
      modifies this, contactInterface, contactInterface.buffer.Values
      ensures Did(old(Seen()).SlaveTurn(m, env))
    {
      if m.syncSn == 0 && m.master {
        if contactInterface.ip < ip {
          neighborState := Master;
          currentSyncSn := 0;
          MasterRecvSync(m, env);
        } else {
          SendSync(currentSyncSn, true);
        }
      } else if !m.master && mySnapshotSequencer == m.neighborSn {
        var more := More(mySnapshotMulticastRoutingTable, syncFragmentation, currentSyncSn);
        if m.syncSn > 0 && !more && !m.more {
          FinishSync();
        } else {
          Advance(m.trees);
        }
      }
    }

    method Advance(trees: seq<Entry>)
      modifies this, contactInterface`outbox
      ensures var f := old(Seen()).(nb := old(View()).(syncSn := old(currentSyncSn) + 1).Install(trees));
              && Seen() == f
              && contactInterface.outbox == old(contactInterface.outbox) + [f.SyncPacket(f.nb.syncSn, true)]
    {
      currentSyncSn := currentSyncSn + 1;
      InstallTreeState(trees);
      SendSync(currentSyncSn, true);
    }

    method SyncedRecvSync(m: Packet, env: Env)
      requires m.Sync? && contactInterface.Valid()
      modifies this, contactInterface, contactInterface.buffer.Values
      ensures Did(old(Seen()).SyncedSync(m, env))
    {
      if neighborSnapshotSn > m.mySn {
        return;
      } else if neighborSnapshotSn < m.mySn {
        NewNeighborOrAdjacencyReset(env);
        return;
      }
      if m.syncSn != currentSyncSn { return; }
      if m.master && mySnapshotSequencer == m.neighborSn {
        contactInterface.Send(Sync(contactInterface.ip, ip, mySnapshotBootTime, timeOfBoot, m.neighborSn, m.mySn,
                                   m.syncSn, [], false, false));
      }
    }

    method UnknownRecvSync(m: Packet, env: Env)
      requires m.Sync? && contactInterface.Valid()
      modifies this, contactInterface, contactInterface.buffer.Values
      ensures Did(old(Seen()).UnknownSync(m, env))
    {
      if m.syncSn == 0 && m.syncSn == currentSyncSn && m.master {
        StartOver(Master, env);
        MasterRecvSync(m, env);
      } else {
        NewNeighborOrAdjacencyReset(env);
      }
    }

    method RecvSync(m: Packet, env: Env)
      requires m.Sync? && contactInterface.Valid()
      modifies this, contactInterface, contactInterface.buffer.Values
      ensures Did(old(Seen()).ReceiveSync(m, env))
    {
      if m.bootTime < timeOfBoot {
        return;
      } else if m.bootTime > timeOfBoot || m.neighborBootTime > mySnapshotBootTime {
        timeOfBoot := m.bootTime;
        neighborSnapshotSn := 0;
        NewNeighborOrAdjacencyReset(env);
        return;
      }
      match neighborState {
        case Unknown => UnknownRecvSync(m, env);
        case Master => MasterRecvSync(m, env);
        case Slave => SlaveRecvSync(m, env);
        case Synced => SyncedRecvSync(m, env);
      }
    }

    /** The Sync timer is armed only while a Sync is awaited. */
    method SyncTimeout()
      requires contactInterface.Valid() && (neighborState == Master ==> currentSyncSn > 0)
      modifies contactInterface`outbox
      ensures Did(old(Seen()).SyncTimeout())
    {
      if neighborState == Master {
        SendSync(currentSyncSn - 1, false);
      } else if neighborState == Slave {
        SendSync(currentSyncSn, true);
      }
    }

    method RecvHello(m: Packet, env: Env)
      requires m.Hello? && contactInterface.Valid()
      modifies this, contactInterface, contactInterface.buffer.Values
      ensures Did(old(Seen()).ReceiveHello(m, env))
    {
      if m.bootTime < timeOfBoot {
        return;
      } else if m.bootTime > timeOfBoot {
        timeOfBoot := m.bootTime;
        neighborSnapshotSn := 0;
        NewNeighborOrAdjacencyReset(env);
        return;
      }
      if neighborState == Synced {
        SetCheckpointSn(m.checkpoint);
      }
    }

    method SetCheckpointSn(sn: nat)
      modifies this
      ensures View() == old(View()).SetCheckpoint(sn)
    {
      if sn > checkpointSn {
        checkpointSn := sn;
        var toRemove := set k | k in lastSequenceNumber && lastSequenceNumber[k] <= sn;
        ghost var last := lastSequenceNumber;
        while toRemove != {}
          invariant toRemove <= set k | k in last && last[k] <= sn
          invariant lastSequenceNumber == map t | t in last && (t in toRemove || last[t] > sn) :: last[t]
          invariant View() == old(View()).(checkpoint := sn, lastSn := lastSequenceNumber)
          decreases toRemove
        {
          var k :| k in toRemove;
          lastSequenceNumber := lastSequenceNumber - {k};
          toRemove := toRemove - {k};
        }
      }
    }

    /** Says whether the message is to be processed; a message that was processed before is acked again. */
    method RecvReliablePacket(sn: nat, tree: Tree, bootTime: nat, env: Env) returns (deliver: bool)
      requires contactInterface.Valid()
      modifies this, contactInterface, contactInterface.buffer.Values
      ensures Did(old(Seen()).Decide(Stamp(bootTime, sn), tree, env))
      ensures deliver == old(Seen()).Decide(Stamp(bootTime, sn), tree, env).delivered
    {
      if bootTime < timeOfBoot {
        return false;
      } else if bootTime > timeOfBoot {
        timeOfBoot := bootTime;
        neighborSnapshotSn := 0;
        NewNeighborOrAdjacencyReset(env);
        return false;
      }
      deliver := RecvCurrentPacket(sn, tree, env);
    }

    /** The decision, once the message is known to be from the BootTime of the adjacency. */
    method RecvCurrentPacket(sn: nat, tree: Tree, env: Env) returns (deliver: bool)
      requires contactInterface.Valid()
      modifies this, contactInterface`outbox
      ensures Did(old(Seen()).Decide(Stamp(timeOfBoot, sn), tree, env))
      ensures deliver == old(Seen()).Decide(Stamp(timeOfBoot, sn), tree, env).delivered
    {
      if neighborState == Unknown || currentSyncSn == 0 { return false; }
      var last := GetOr(lastSequenceNumber, tree, 0);
      if sn <= neighborSnapshotSn || sn <= checkpointSn {
        return false;
      } else if sn >= last {
        contactInterface.Send(Ack(contactInterface.ip, ip, contactInterface.timeOfBoot, timeOfBoot, tree,
                                  neighborSnapshotSn, mySnapshotSequencer, sn));
        if sn > last {
          lastSequenceNumber := lastSequenceNumber[tree := sn];
          return true;
        }
      }
      return false;
    }

    function GetTreeState(tree: Tree): (r: (bool, Option<Metric>))
      ensures r == View().TreeState(tree)
      reads this
    {
      if neighborState != Synced then (false, None)
      else if tree in treeMetricState then (false, Some(treeMetricState[tree]))
      else (GetOr(treeInterestState, tree, true), None)
    }

    method Store(tree: Tree, kind: Kind)
      modifies this
      ensures View() == old(View()).Apply(tree, kind)
    {
      match kind {
        case IamUpstream(metric) =>
          treeInterestState := treeInterestState - {tree};
          treeMetricState := treeMetricState[tree := metric];
        case IamNoLongerUpstream =>
          treeInterestState := treeInterestState - {tree};
          treeMetricState := treeMetricState - {tree};
        case Interest =>
          treeInterestState := treeInterestState[tree := true];
          treeMetricState := treeMetricState - {tree};
        case NoInterest =>
          treeInterestState := treeInterestState[tree := false];
          treeMetricState := treeMetricState - {tree};
      }
    }

    method RecvAck(a: Packet, env: Env) returns (matches: bool)
      requires a.Ack? && contactInterface.Valid()
      modifies this, contactInterface, contactInterface.buffer.Values
      ensures matches ==> old(Seen()).Matches(a) && a.bootTime == old(timeOfBoot) && Seen() == old(Seen())
      ensures matches ==>
                contactInterface.Valid() && contactInterface.SameObjects() && contactInterface.outbox == old(contactInterface.outbox)
      ensures !matches ==> Did(old(Seen()).ReceiveAck(a, env))
    {
      if a.bootTime < timeOfBoot {
        return false;
      } else if a.bootTime > timeOfBoot {
        timeOfBoot := a.bootTime;
        neighborSnapshotSn := 0;
        NewNeighborOrAdjacencyReset(env);
        return false;
      }
      return && neighborState != Unknown && currentSyncSn > 0
             && mySnapshotBootTime == a.neighborBootTime && timeOfBoot == a.bootTime
             && mySnapshotSequencer == a.neighborSn && neighborSnapshotSn == a.mySn;
    }
  }
}
