/** The link model exchanges packets as values; this is why it may. */
module LinkWire {
  import opened Types
  import opened NeighborSpec
  import opened Link
  import opened LinkInv
  import opened LinkTheorems
  import opened Codec

  /** Every Sync that is ever sent, over every run, is received as it was sent: the machine sends no
      trees with the last fragment and no options before it. */
  lemma SyncsSurviveTheWire(l: Link, p: Packet, options: seq<HelloOption>)
    requires Reachable(l) && p in l.sent && p.Sync? && p.syncSn < MORE_BIT
    requires OneOfEach(options) && (p.more ==> options == []) && EncodeSync(OnTheWire(p, options)).Some?
    ensures DecodeSync(EncodeSync(OnTheWire(p, options)).value) == Some(OnTheWire(p, options))
  {
    ReachableOk(l);
    assert SyncOk(l.snaps, p);
    var s := l.snaps[AdjId(p.src, Stamp(p.bootTime, p.mySn))];
    if !p.more {
      LastFragmentIsEmpty(s.listing, s.fragmentation, p.syncSn);
    }
    SyncRoundTrip(OnTheWire(p, options));
  }
}
