/** Reliable transmission as pure functions: what one tree keeps in flight on an interface,
    and what the interface keeps for all its trees. */
module ReliableSpec {
  import opened Types
  import opened Metrics

  /** The sequence number that is never issued: reaching it restarts the interface. */
  const MAX_SEQUENCE_NUMBER: nat := 0xFFFF_FFFF

  const ACK_FAILURE_THRESHOLD: nat := 3

  datatype Kind = IamUpstream(metric: Metric) | IamNoLongerUpstream | Interest | NoInterest

  datatype Msg = Msg(stamp: Stamp, tree: Tree, kind: Kind)

  function Charge(failures: map<Ip, nat>, owing: set<Ip>): map<Ip, nat> {
    map n | n in failures.Keys + owing :: GetOr(failures, n, 0) + (if n in owing then 1 else 0)
  }

  /** What is kept in flight for one tree. */
  datatype Rmt = Rmt(multicast: Option<Msg>,
                     unicast: map<Ip, Msg>,
                     acked: set<Ip>,
                     failures: map<Ip, nat>,
                     armed: bool) {

    predicate Idle() {
      multicast.None? && unicast == map[]
    }

    function CancelAll(): Rmt {
      IDLE
    }

    function CancelMulticast(): Rmt {
      if unicast == map[] then IDLE
      else Rmt(None, unicast, {}, map n | n in failures && n in unicast :: failures[n], armed)
    }

    function CancelUnicast(ip: Ip): Rmt {
      var u := unicast - {ip};
      Rmt(multicast, u, acked, failures - {ip}, armed && (multicast.Some? || u != map[]))
    }

    function AckMulticast(neighbors: set<Ip>, ip: Ip, stamp: Stamp): Rmt {
      if multicast.Some? && AtMost(multicast.value.stamp, stamp) then
        var r := this.(acked := acked + {ip});
        if neighbors <= r.acked then r.CancelMulticast() else r
      else
        this
    }

    function ReceiveAck(neighbors: set<Ip>, ip: Ip, stamp: Stamp): Rmt {
      var r := AckMulticast(neighbors, ip, stamp);
      if ip in r.unicast && AtMost(r.unicast[ip].stamp, stamp) then r.CancelUnicast(ip) else r
    }

    function Multicast(msg: Msg): Rmt {
      Rmt(Some(msg), map[], {}, map[], true)
    }

    function Unicast(dst: Ip, msg: Msg): Rmt {
      Rmt(multicast, unicast[dst := msg], if multicast.Some? then acked + {dst} else acked, failures, true)
    }

    /** Whether `ip` still owes an acknowledgement for this tree. */
    predicate Pending(ip: Ip) {
      (multicast.Some? && ip !in acked) || ip in unicast
    }

    /** The timer has fired: forget what everybody acked and what is owed by routers that left,
        keep the rest in flight, and charge one failure to each neighbour that owes an ack. */
    function Expire(neighbors: set<Ip>): Rmt {
      var done := multicast.Some? && neighbors <= acked;
      var r := if done then CancelMulticast() else this;
      var u := map n | n in unicast && n in neighbors :: unicast[n];
      var owing := (if multicast.Some? && !done then neighbors - acked else {}) + u.Keys;
      var kept := r.failures - (unicast.Keys - neighbors);
      Rmt(r.multicast, u, r.acked, Charge(kept, owing), r.multicast.Some? || u != map[])
    }

    function Failed(): set<Ip> {
      set n | n in failures && failures[n] > ACK_FAILURE_THRESHOLD
    }

    function DropFailed(): Rmt {
      this.(failures := failures - Failed())
    }
  }

  const IDLE := Rmt(None, map[], {}, map[], false)

  /** An interface: its clock of sequence numbers, its neighbours, and its trees in flight. */
  datatype Iface = Iface(bootTime: nat, sequencer: nat, neighbors: set<Ip>, buffer: map<Tree, Rmt>) {

    function Now(): Stamp {
      Stamp(bootTime, sequencer)
    }

    function Of(tree: Tree): Rmt {
      GetOr(buffer, tree, IDLE)
    }

    /** Issues the next number; when the numbers run out the interface restarts at `clock`
        with nothing in flight. */
    function Tick(clock: nat): Iface {
      if sequencer + 1 == MAX_SEQUENCE_NUMBER then
        Iface(clock, 1, neighbors, map t | t in buffer :: buffer[t].CancelAll())
      else
        this.(sequencer := sequencer + 1)
    }

    function SendMulticast(tree: Tree, kind: Kind, clock: nat): Iface {
      var i := this.(buffer := buffer[tree := Of(tree).CancelAll()]).Tick(clock);
      i.(buffer := i.buffer[tree := i.Of(tree).Multicast(Msg(i.Now(), tree, kind))])
    }

    function SendUnicast(tree: Tree, kind: Kind, dst: Ip, clock: nat): Iface {
      var i := this.(buffer := buffer[tree := Of(tree).CancelUnicast(dst)]).Tick(clock);
      i.(buffer := i.buffer[tree := i.Of(tree).Unicast(dst, Msg(i.Now(), tree, kind))])
    }

    function ReceiveAck(tree: Tree, ip: Ip, stamp: Stamp): Iface {
      if tree in buffer then
        this.(buffer := buffer[tree := buffer[tree].ReceiveAck(neighbors, ip, stamp)])
      else
        this
    }

    /** A synchronisation with `ip` starts: everything stamped before it counts as acked. */
    function StartSynchronization(ip: Ip, stamp: Stamp): Iface {
      this.(buffer := map t | t in buffer :: buffer[t].ReceiveAck(neighbors, ip, stamp))
    }

    function Expire(tree: Tree): Iface {
      if tree in buffer then
        var r := buffer[tree].Expire(neighbors);
        Iface(bootTime, sequencer, neighbors - r.Failed(), buffer[tree := r.DropFailed()])
      else
        this
    }
  }
}
