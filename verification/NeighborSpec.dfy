/** One end of an adjacency as pure functions: what an interface does with each packet of one
    neighbour, and what it then sends and stores. */
module NeighborSpec {
  import opened Types
  import opened Metrics
  import opened ReliableSpec

  /** `Slave`: the neighbour is slave, this end drives the exchange. `Master`: the neighbour drives. */
  datatype SyncState = Unknown | Master | Slave | Synced

  datatype Entry = Entry(tree: Tree, metric: Metric)

  /** The values are those of the packets on the wire, plus the addresses of the IP header. */
  datatype Packet =
    | Sync(src: Ip, dst: Ip, bootTime: nat, neighborBootTime: nat, mySn: nat, neighborSn: nat,
           syncSn: nat, trees: seq<Entry>, master: bool, more: bool)
    | Hello(src: Ip, bootTime: nat, checkpoint: nat)
    | Reliable(src: Ip, to: Option<Ip>, msg: Msg)
    | Ack(src: Ip, dst: Ip, bootTime: nat, neighborBootTime: nat, tree: Tree,
          neighborSn: nat, mySn: nat, sn: nat)

  // ----- Snapshots in fragments -----

  /** How many of `n` trees the fragments before number `k` hold. */
  function Upto(n: nat, size: nat, k: nat): (u: nat)
    ensures u <= n
  {
    if k * size < n then k * size else n
  }

  function Fragment(table: seq<Entry>, size: nat, k: nat): seq<Entry> {
    UptoIsMonotone(|table|, size, k);
    table[Upto(|table|, size, k)..Upto(|table|, size, k + 1)]
  }

  predicate More(table: seq<Entry>, size: nat, k: nat) {
    |table| > k * size
  }

  lemma UptoIsMonotone(n: nat, size: nat, k: nat)
    ensures Upto(n, size, k) <= Upto(n, size, k + 1)
  {
    assert (k + 1) * size == k * size + size;
  }

  /** What an interface holds about one neighbour. */
  datatype Nb = Nb(state: SyncState,
                   timeOfBoot: nat,
                   neighborSn: nat,
                   syncSn: nat,
                   fragmentation: nat,
                   interest: map<Tree, bool>,
                   upstream: map<Tree, Metric>,
                   lastSn: map<Tree, nat>,
                   checkpoint: nat,
                   myBootTime: nat,
                   mySn: nat,
                   myTable: seq<Entry>) {

    function Install(trees: seq<Entry>): Nb
      decreases |trees|
    {
      if trees == [] then this
      else
        var t := trees[0];
        (if GetOr(lastSn, t.tree, 0) > neighborSn then this
         else this.(upstream := upstream[t.tree := t.metric])).Install(trees[1..])
    }

    function Forget(): Nb {
      this.(interest := map[], upstream := map[], lastSn := map[], syncSn := 0, neighborSn := 0, checkpoint := 0)
    }

    /** A reliable message that was let through changes the stored state of its tree. */
    function Apply(tree: Tree, kind: Kind): Nb {
      match kind
      case IamUpstream(m) => this.(interest := interest - {tree}, upstream := upstream[tree := m])
      case IamNoLongerUpstream => this.(interest := interest - {tree}, upstream := upstream - {tree})
      case Interest => this.(interest := interest[tree := true], upstream := upstream - {tree})
      case NoInterest => this.(interest := interest[tree := false], upstream := upstream - {tree})
    }

    function SetCheckpoint(sn: nat): Nb {
      if sn > checkpoint then
        this.(checkpoint := sn, lastSn := map t | t in lastSn && lastSn[t] > sn :: lastSn[t])
      else this
    }

    /** The (interest, upstream) pair read back from what is stored; nothing unless Synced. */
    function TreeState(tree: Tree): (bool, Option<Metric>) {
      if state != Synced then (false, None)
      else if tree in upstream then (false, Some(upstream[tree]))
      else (GetOr(interest, tree, true), None)
    }
  }

  function NewNb(bootTime: nat, myBootTime: nat): Nb {
    Nb(Unknown, bootTime, 0, 0, 0, map[], map[], map[], 0, myBootTime, 0, [])
  }

  /** What a new snapshot would hold, should one be taken: the trees this interface announces in
      some order, the number of trees per Sync packet, and the clock should the numbers run out. */
  datatype Env = Env(listing: seq<Entry>, fragmentation: nat, clock: nat)

  datatype Outcome = Outcome(end: End, out: seq<Packet>, delivered: bool)

  /** An interface seen from one of its adjacencies. */
  datatype End = End(me: Ip, peer: Ip, iface: Iface, nb: Nb) {

    function Quiet(): Outcome {
      Outcome(this, [], false)
    }

    function SyncPacket(k: nat, master: bool): Packet {
      Sync(me, peer, nb.myBootTime, nb.timeOfBoot, nb.mySn, nb.neighborSn, k,
           Fragment(nb.myTable, nb.fragmentation, k), master, More(nb.myTable, nb.fragmentation, k))
    }

    function StartSnapshot(env: Env): End {
      var i := iface.Tick(env.clock);
      this.(iface := i.StartSynchronization(peer, i.Now()),
            nb := nb.(myBootTime := i.bootTime, mySn := i.sequencer,
                      myTable := env.listing, fragmentation := env.fragmentation))
    }

    function Reset(bootTime: nat, env: Env): Outcome {
      var e := this.(nb := nb.(timeOfBoot := bootTime, state := Slave)).StartSnapshot(env);
      var r := e.(nb := e.nb.Forget());
      Outcome(r, [r.SyncPacket(0, true)], false)
    }

    // ----- Sync -----

    /** Takes over the neighbour's SnapshotSN from the first Sync after a reset. */
    function Adopt(sn: nat): End {
      if nb.syncSn == 0 && nb.neighborSn == 0 then this.(nb := nb.(neighborSn := sn)) else this
    }

    function FinishSync(): End {
      this.(nb := nb.(state := Synced, myTable := []))
    }

    function MasterSync(m: Packet, env: Env): Outcome
      requires m.Sync?
    {
      var e := Adopt(m.mySn);
      if e.nb.neighborSn > m.mySn then e.Quiet()
      else if e.nb.neighborSn < m.mySn then e.Reset(e.nb.timeOfBoot, env)
      else if m.syncSn != e.nb.syncSn then e.Quiet()
      else if m.master && (m.syncSn == 0 || e.nb.mySn == m.neighborSn) then
        var f := e.(nb := e.nb.Install(m.trees));
        var p := f.SyncPacket(f.nb.syncSn, false);
        if m.syncSn > 0 && !m.more && !p.more then Outcome(f.FinishSync(), [p], false)
        else Outcome(f.(nb := f.nb.(syncSn := f.nb.syncSn + 1)), [p], false)
      else e.Quiet()
    }

    function SlaveSync(m: Packet, env: Env): Outcome
      requires m.Sync?
    {
      var e := Adopt(m.mySn);
      if e.nb.neighborSn > m.mySn then e.Quiet()
      else if e.nb.neighborSn < m.mySn then e.Reset(e.nb.timeOfBoot, env)
      else if m.syncSn != e.nb.syncSn then e.Quiet()
      else e.SlaveTurn(m, env)
    }

    /** The driving end got a Sync with the number it is waiting for. */
    function SlaveTurn(m: Packet, env: Env): Outcome
      requires m.Sync?
    {
      if m.syncSn == 0 && m.master then
        if me < peer then this.(nb := nb.(state := Master, syncSn := 0)).MasterSync(m, env)
        else Outcome(this, [SyncPacket(nb.syncSn, true)], false)
      else if !m.master && nb.mySn == m.neighborSn then
        if m.syncSn > 0 && !More(nb.myTable, nb.fragmentation, nb.syncSn) && !m.more then
          FinishSync().Quiet()
        else
          var f := this.(nb := nb.(syncSn := nb.syncSn + 1).Install(m.trees));
          Outcome(f, [f.SyncPacket(f.nb.syncSn, true)], false)
      else Quiet()
    }

    function SyncedSync(m: Packet, env: Env): Outcome
      requires m.Sync?
    {
      if nb.neighborSn > m.mySn then Quiet()
      else if nb.neighborSn < m.mySn then Reset(nb.timeOfBoot, env)
      else if m.syncSn == nb.syncSn && m.master && nb.mySn == m.neighborSn then
        Outcome(this, [Sync(me, peer, nb.myBootTime, nb.timeOfBoot, m.neighborSn, m.mySn, m.syncSn, [], false, false)], false)
      else Quiet()
    }

    function UnknownSync(m: Packet, env: Env): Outcome
      requires m.Sync?
    {
      if m.syncSn == 0 && m.syncSn == nb.syncSn && m.master then
        var e := this.(nb := nb.(state := Master)).StartSnapshot(env);
        e.(nb := e.nb.Forget()).MasterSync(m, env)
      else Reset(nb.timeOfBoot, env)
    }

    function ReceiveSync(m: Packet, env: Env): Outcome
      requires m.Sync?
    {
      if m.bootTime < nb.timeOfBoot then Quiet()
      else if m.bootTime > nb.timeOfBoot || m.neighborBootTime > nb.myBootTime then Reset(m.bootTime, env)
      else match nb.state
        case Unknown => UnknownSync(m, env)
        case Master => MasterSync(m, env)
        case Slave => SlaveSync(m, env)
        case Synced => SyncedSync(m, env)
    }

    /** The Sync timer fires: the last Sync is sent again. */
    function SyncTimeout(): Outcome {
      if nb.state == Master && nb.syncSn > 0 then Outcome(this, [SyncPacket(nb.syncSn - 1, false)], false)
      else if nb.state == Slave then Outcome(this, [SyncPacket(nb.syncSn, true)], false)
      else Quiet()
    }

    // ----- Everything else -----

    function ReceiveHello(m: Packet, env: Env): Outcome
      requires m.Hello?
    {
      if m.bootTime < nb.timeOfBoot then Quiet()
      else if m.bootTime > nb.timeOfBoot then Reset(m.bootTime, env)
      else if nb.state == Synced then this.(nb := nb.SetCheckpoint(m.checkpoint)).Quiet()
      else Quiet()
    }

    /** Decides whether a reliable message is acked and whether it is delivered. */
    function Decide(stamp: Stamp, tree: Tree, env: Env): Outcome {
      if stamp.bootTime < nb.timeOfBoot then Quiet()
      else if stamp.bootTime > nb.timeOfBoot then Reset(stamp.bootTime, env)
      else if nb.state == Unknown || nb.syncSn == 0 then Quiet()
      else if stamp.sn <= nb.neighborSn || stamp.sn <= nb.checkpoint then Quiet()
      else if stamp.sn < GetOr(nb.lastSn, tree, 0) then Quiet()
      else
        var ack := Ack(me, peer, iface.bootTime, stamp.bootTime, tree, nb.neighborSn, nb.mySn, stamp.sn);
        if stamp.sn == GetOr(nb.lastSn, tree, 0) then Outcome(this, [ack], false)
        else Outcome(this.(nb := nb.(lastSn := nb.lastSn[tree := stamp.sn])), [ack], true)
    }

    function ReceiveReliable(m: Packet, env: Env): Outcome
      requires m.Reliable?
    {
      var o := Decide(m.msg.stamp, m.msg.tree, env);
      if o.delivered then o.(end := o.end.(nb := o.end.nb.Apply(m.msg.tree, m.msg.kind))) else o
    }

    /** An ack counts only when it names the pair of snapshots of this adjacency. */
    predicate Matches(a: Packet)
      requires a.Ack?
    {
      && nb.state != Unknown && nb.syncSn > 0
      && nb.myBootTime == a.neighborBootTime && nb.timeOfBoot == a.bootTime
      && nb.mySn == a.neighborSn && nb.neighborSn == a.mySn
    }

    function ReceiveAck(a: Packet, env: Env): Outcome
      requires a.Ack?
    {
      if a.bootTime < nb.timeOfBoot then Quiet()
      else if a.bootTime > nb.timeOfBoot then Reset(a.bootTime, env)
      else if Matches(a) then
        this.(iface := iface.ReceiveAck(a.tree, peer, Stamp(a.neighborBootTime, a.sn))).Quiet()
      else Quiet()
    }

    function Receive(m: Packet, env: Env): Outcome {
      match m
      case Sync(_, _, _, _, _, _, _, _, _, _) => ReceiveSync(m, env)
      case Hello(_, _, _) => ReceiveHello(m, env)
      case Reliable(_, _, _) => ReceiveReliable(m, env)
      case Ack(_, _, _, _, _, _, _, _) => ReceiveAck(m, env)
    }
  }
}
