/** The binary formats: the header, Hello options, Hello and Sync. Encoding fails, as packing a
    number too large for its field does; decoding fails where unpacking does. */
module Codec {
  import opened Types
  import opened Metrics
  import opened NeighborSpec
  import Checksum

  type Bytes = seq<Checksum.Byte>

  // ----- Numbers in network order -----

  function U16(v: nat): (b: Bytes)
    requires v < 0x1_0000
    ensures |b| == 2
  {
    [v / 256, v % 256]
  }

  function U32(v: nat): (b: Bytes)
    requires v < 0x1_0000_0000
    ensures |b| == 4
  {
    [v / 0x100_0000, v / 0x1_0000 % 256, v / 256 % 256, v % 256]
  }

  function Read16(b: Bytes): (v: nat)
    requires |b| >= 2
    ensures v < 0x1_0000
  {
    var x: int, y: int := b[0], b[1];
    x * 256 + y
  }

  function Read32(b: Bytes): (v: nat)
    requires |b| >= 4
    ensures v < 0x1_0000_0000
  {
    var w: int, x: int, y: int, z: int := b[0], b[1], b[2], b[3];
    w * 0x100_0000 + x * 0x1_0000 + y * 256 + z
  }

  lemma Read16Back(v: nat, rest: Bytes)
    requires v < 0x1_0000
    ensures Read16(U16(v) + rest) == v
  {
  }

  lemma Read32Back(v: nat, rest: Bytes)
    requires v < 0x1_0000_0000
    ensures Read32(U32(v) + rest) == v
  {
  }

  function Min(a: nat, b: nat): (m: nat)
    ensures m <= a && m <= b
  {
    if a < b then a else b
  }

  /** `data[:n]` and `data[n:]`, which never fail. */
  function Take(data: Bytes, n: nat): Bytes {
    data[..Min(n, |data|)]
  }

  function Drop(data: Bytes, n: nat): Bytes {
    data[Min(n, |data|)..]
  }

  // ----- Hello options -----

  datatype HelloOption = Holdtime(seconds: nat) | CheckpointSn(sn: nat) | UnknownOption(kind: nat, length: nat)

  datatype OptionType = HOLDTIME | CHECKPOINT_SN | UNKNOWN

  function TypeOf(o: HelloOption): OptionType {
    match o
    case Holdtime(_) => HOLDTIME
    case CheckpointSn(_) => CHECKPOINT_SN
    case UnknownOption(_, _) => UNKNOWN
  }

  /** Unknown options are not transmitted. */
  function EncodeOption(o: HelloOption): Option<Bytes> {
    match o
    case Holdtime(seconds) => if seconds < 0x1_0000 then Some(U16(1) + U16(2) + U16(seconds)) else None
    case CheckpointSn(sn) => if sn < 0x1_0000_0000 then Some(U16(2) + U16(4) + U32(sn)) else None
    case UnknownOption(_, _) => None
  }

  function DecodeOption(data: Bytes): Option<HelloOption> {
    if |data| < 4 then None
    else
      var kind, length := Read16(data), Read16(data[2..]);
      var value := Take(data[4..], length);
      if kind == 1 then if |value| == 2 then Some(Holdtime(Read16(value))) else None
      else if kind == 2 then if |value| == 4 then Some(CheckpointSn(Read32(value))) else None
      else Some(UnknownOption(kind, length))
  }

  function OptionLength(o: HelloOption): (n: nat)
    ensures n >= 4
  {
    match o
    case Holdtime(_) => 6
    case CheckpointSn(_) => 8
    case UnknownOption(_, length) => 4 + length
  }

  /** An option replaces the one of its type, or comes last. */
  function AddOption(options: seq<HelloOption>, o: HelloOption): seq<HelloOption> {
    if options == [] then [o]
    else if TypeOf(options[0]) == TypeOf(o) then [o] + options[1..]
    else [options[0]] + AddOption(options[1..], o)
  }

  function EncodeOptions(options: seq<HelloOption>): Option<Bytes> {
    if options == [] then Some([])
    else
      var front, last := EncodeOptions(options[..|options| - 1]), EncodeOption(options[|options| - 1]);
      if front.Some? && last.Some? then Some(front.value + last.value) else None
  }

  function DecodeOptions(data: Bytes, options: seq<HelloOption>): Option<seq<HelloOption>>
    decreases |data|
  {
    if data == [] then Some(options)
    else
      var o := DecodeOption(data);
      if o.None? then None else DecodeOptions(Drop(data, OptionLength(o.value)), AddOption(options, o.value))
  }

  method OptionsBytes(options: seq<HelloOption>) returns (msg: Option<Bytes>)
    ensures msg == EncodeOptions(options)
  {
    msg := Some([]);
    for k := 0 to |options|
      invariant msg == EncodeOptions(options[..k])
    {
      var b := EncodeOption(options[k]);
      assert options[..k + 1][..k] == options[..k];
      msg := if msg.Some? && b.Some? then Some(msg.value + b.value) else None;
    }
    assert options[..|options|] == options;
  }

  method ParseOptions(data: Bytes) returns (options: Option<seq<HelloOption>>)
    ensures options == DecodeOptions(data, [])
  {
    var rest, found := data, [];
    while rest != []
      invariant DecodeOptions(rest, found) == DecodeOptions(data, [])
      decreases |rest|
    {
      var o := DecodeOption(rest);
      if o.None? { return None; }
      rest := Drop(rest, OptionLength(o.value));
      found := AddOption(found, o.value);
    }
    return Some(found);
  }

  // ----- Options come back, and unknown ones are skipped -----

  /** What may be on the wire: an option of ours, or one of a kind nobody here knows. */
  datatype Item = Known(o: HelloOption) | Raw(kind: nat, value: Bytes)

  predicate ItemOk(i: Item) {
    match i
    case Known(o) => EncodeOption(o).Some?
    case Raw(kind, value) => kind != 1 && kind != 2 && kind < 0x1_0000 && |value| < 0x1_0000
  }

  function ItemBytes(i: Item): (b: Bytes)
    requires ItemOk(i)
  {
    match i
    case Known(o) => EncodeOption(o).value
    case Raw(kind, value) => U16(kind) + U16(|value|) + value
  }

  function ItemOption(i: Item): HelloOption {
    match i
    case Known(o) => o
    case Raw(kind, value) => UnknownOption(kind, |value|)
  }

  function Wire(items: seq<Item>): Bytes
    requires forall i :: i in items ==> ItemOk(i)
  {
    if items == [] then [] else ItemBytes(items[0]) + Wire(items[1..])
  }

  function AddAll(options: seq<HelloOption>, items: seq<Item>): seq<HelloOption>
    decreases |items|
  {
    if items == [] then options else AddAll(AddOption(options, ItemOption(items[0])), items[1..])
  }

  lemma HeaderOfOption(kind: nat, length: nat, rest: Bytes)
    requires kind < 0x1_0000 && length < 0x1_0000
    ensures var data := U16(kind) + U16(length) + rest;
            && |data| >= 4 && Read16(data) == kind && Read16(data[2..]) == length && data[4..] == rest
  {
    var data := U16(kind) + U16(length) + rest;
    assert data == U16(kind) + (U16(length) + rest);
    Read16Back(kind, U16(length) + rest);
    assert data[2..] == U16(length) + rest;
    Read16Back(length, rest);
  }

  /** Whatever follows an item, the item is read as it was meant, and exactly that much is read. */
  lemma ItemComesBack(i: Item, rest: Bytes)
    requires ItemOk(i)
    ensures var data := ItemBytes(i) + rest;
            && DecodeOption(data) == Some(ItemOption(i))
            && Drop(data, OptionLength(ItemOption(i))) == rest && |data| > |rest|
  {
    var data := ItemBytes(i) + rest;
    match i {
      case Known(Holdtime(seconds)) =>
        assert data == U16(1) + U16(2) + (U16(seconds) + rest);
        HeaderOfOption(1, 2, U16(seconds) + rest);
        assert Take(data[4..], 2) == U16(seconds) + [];
        Read16Back(seconds, []);
      case Known(CheckpointSn(sn)) =>
        assert data == U16(2) + U16(4) + (U32(sn) + rest);
        HeaderOfOption(2, 4, U32(sn) + rest);
        assert Take(data[4..], 4) == U32(sn) + [];
        Read32Back(sn, []);
      case Raw(kind, value) =>
        assert data == U16(kind) + U16(|value|) + (value + rest);
        HeaderOfOption(kind, |value|, value + rest);
      case _ =>
    }
  }

  lemma {:induction false} WireComesBack(items: seq<Item>, options: seq<HelloOption>)
    requires forall i :: i in items ==> ItemOk(i)
    ensures DecodeOptions(Wire(items), options) == Some(AddAll(options, items))
    decreases |items|
  {
    if items != [] {
      ItemComesBack(items[0], Wire(items[1..]));
      WireComesBack(items[1..], AddOption(options, ItemOption(items[0])));
    }
  }

  predicate IsKnown(o: HelloOption) {
    !o.UnknownOption?
  }

  function OnlyKnown(options: seq<HelloOption>): seq<HelloOption> {
    if options == [] then []
    else if IsKnown(options[0]) then [options[0]] + OnlyKnown(options[1..])
    else OnlyKnown(options[1..])
  }

  function OnlyKnownItems(items: seq<Item>): seq<Item> {
    if items == [] then []
    else if items[0].Known? then [items[0]] + OnlyKnownItems(items[1..])
    else OnlyKnownItems(items[1..])
  }

  lemma {:induction false} AddKnown(options: seq<HelloOption>, o: HelloOption)
    ensures OnlyKnown(AddOption(options, o)) == if IsKnown(o) then AddOption(OnlyKnown(options), o) else OnlyKnown(options)
  {
    if options != [] {
      if TypeOf(options[0]) == TypeOf(o) {
        assert ([o] + options[1..])[1..] == options[1..];
        if IsKnown(o) {
          assert ([options[0]] + OnlyKnown(options[1..]))[1..] == OnlyKnown(options[1..]);
        }
      } else {
        AddKnown(options[1..], o);
        assert ([options[0]] + AddOption(options[1..], o))[1..] == AddOption(options[1..], o);
        if IsKnown(options[0]) {
          assert ([options[0]] + OnlyKnown(options[1..]))[1..] == OnlyKnown(options[1..]);
        }
      }
    }
  }

  lemma {:induction false} AddAllKnown(options: seq<HelloOption>, known: seq<HelloOption>, items: seq<Item>)
    requires known == OnlyKnown(options) && forall i :: i in items && i.Known? ==> IsKnown(i.o)
    ensures OnlyKnown(AddAll(options, items)) == AddAll(known, OnlyKnownItems(items))
    decreases |items|
  {
    if items != [] {
      var o := ItemOption(items[0]);
      AddKnown(options, o);
      AddAllKnown(AddOption(options, o), OnlyKnown(AddOption(options, o)), items[1..]);
      if items[0].Known? {
        assert ([items[0]] + OnlyKnownItems(items[1..]))[1..] == OnlyKnownItems(items[1..]);
      }
    }
  }

  /** Options of unknown kinds, wherever they stand, change nothing about the known ones. */
  lemma UnknownOptionsAreSkipped(items: seq<Item>)
    requires forall i :: i in items ==> ItemOk(i)
    ensures forall i :: i in OnlyKnownItems(items) ==> ItemOk(i)
    ensures DecodeOptions(Wire(items), []).Some?
    ensures Some(OnlyKnown(DecodeOptions(Wire(items), []).value)) == DecodeOptions(Wire(OnlyKnownItems(items)), [])
  {
    KnownItemsAreOk(items);
    WireComesBack(items, []);
    WireComesBack(OnlyKnownItems(items), []);
    AddAllKnown([], [], items);
  }

  lemma {:induction false} KnownItemsAreOk(items: seq<Item>)
    requires forall i :: i in items ==> ItemOk(i)
    ensures forall i :: i in OnlyKnownItems(items) ==> ItemOk(i)
  {
    if items != [] {
      KnownItemsAreOk(items[1..]);
    }
  }

  // ----- What was encoded is decoded -----

  /** A dictionary of options has one of each type at most. */
  predicate OneOfEach(options: seq<HelloOption>) {
    forall j, k :: 0 <= j < k < |options| ==> TypeOf(options[j]) != TypeOf(options[k])
  }

  function Items(options: seq<HelloOption>): (items: seq<Item>)
    ensures |items| == |options| && forall k :: 0 <= k < |items| ==> items[k] == Known(options[k])
  {
    seq(|options|, k requires 0 <= k < |options| => Known(options[k]))
  }

  lemma {:induction false} WireSplits(a: seq<Item>, b: seq<Item>)
    requires (forall i :: i in a ==> ItemOk(i)) && (forall i :: i in b ==> ItemOk(i))
    ensures Wire(a + b) == Wire(a) + Wire(b)
  {
    if a == [] {
      assert a + b == b;
    } else {
      assert (a + b)[1..] == a[1..] + b;
      WireSplits(a[1..], b);
    }
  }

  lemma {:induction false} EncodedIsWire(options: seq<HelloOption>)
    requires EncodeOptions(options).Some?
    ensures forall i :: i in Items(options) ==> ItemOk(i)
    ensures EncodeOptions(options).value == Wire(Items(options))
  {
    if options != [] {
      var n := |options| - 1;
      EncodedIsWire(options[..n]);
      assert Items(options) == Items(options[..n]) + [Known(options[n])];
      WireSplits(Items(options[..n]), [Known(options[n])]);
      assert Wire([Known(options[n])]) == EncodeOption(options[n]).value + [];
    }
  }

  lemma {:induction false} AddNew(options: seq<HelloOption>, o: HelloOption)
    requires forall k :: 0 <= k < |options| ==> TypeOf(options[k]) != TypeOf(o)
    ensures AddOption(options, o) == options + [o]
  {
    if options != [] {
      AddNew(options[1..], o);
      assert options + [o] == [options[0]] + (options[1..] + [o]);
    }
  }

  lemma {:induction false} AddAllNew(done: seq<HelloOption>, options: seq<HelloOption>)
    requires OneOfEach(done + options)
    ensures AddAll(done, Items(options)) == done + options
    decreases |options|
  {
    if options != [] {
      assert done + options == (done + [options[0]]) + options[1..];
      forall k | 0 <= k < |done| ensures TypeOf(done[k]) != TypeOf(options[0]) {
        assert (done + options)[k] == done[k] && (done + options)[|done|] == options[0];
      }
      AddNew(done, options[0]);
      assert Items(options)[1..] == Items(options[1..]);
      AddAllNew(done + [options[0]], options[1..]);
    } else {
      assert done + options == done;
    }
  }

  /** A Hello comes back as it was sent. */
  lemma HelloRoundTrip(options: seq<HelloOption>)
    requires OneOfEach(options) && EncodeOptions(options).Some?
    ensures DecodeOptions(EncodeOptions(options).value, []) == Some(options)
  {
    EncodedIsWire(options);
    WireComesBack(Items(options), []);
    assert [] + options == options;
    AddAllNew([], options);
  }

  // ----- Sync -----

  const ENTRY_LENGTH := 16

  function EncodeEntry(e: Entry): (b: Option<Bytes>)
    ensures b.Some? ==> |b.value| == ENTRY_LENGTH
  {
    var max := 0x1_0000_0000;
    if e.tree.source < max && e.tree.group < max && e.metric.preference < max && e.metric.cost < max then
      Some(U32(e.tree.source) + U32(e.tree.group) + U32(e.metric.preference) + U32(e.metric.cost))
    else None
  }

  function DecodeEntry(data: Bytes): Option<Entry> {
    if |data| < ENTRY_LENGTH then None
    else Some(Entry(Tree(Read32(data), Read32(data[4..])), Metric(Read32(data[8..]), Read32(data[12..]))))
  }

  function EncodeEntries(trees: seq<Entry>): (b: Option<Bytes>)
    ensures b.Some? ==> |b.value| == ENTRY_LENGTH * |trees|
  {
    if trees == [] then Some([])
    else
      var front, last := EncodeEntries(trees[..|trees| - 1]), EncodeEntry(trees[|trees| - 1]);
      if front.Some? && last.Some? then Some(front.value + last.value) else None
  }

  function DecodeEntries(data: Bytes): Option<seq<Entry>>
    decreases |data|
  {
    if data == [] then Some([])
    else
      var e := DecodeEntry(data);
      if e.None? then None
      else
        var rest := DecodeEntries(data[ENTRY_LENGTH..]);
        if rest.None? then None else Some([e.value] + rest.value)
  }

  datatype SyncMsg = SyncMsg(mySn: nat, neighborSn: nat, neighborBootTime: nat, syncSn: nat,
                             trees: seq<Entry>, master: bool, more: bool, options: seq<HelloOption>)

  /** `x` with the bit of that weight set. */
  function SetBit(x: nat, weight: nat, b: bool): (y: nat)
    requires weight > 0
  {
    if b && (x / weight) % 2 == 0 then x + weight else x
  }

  const MORE_BIT := 0x4000_0000
  const MASTER_BIT := 0x8000_0000

  function FlagsAndSyncSn(m: SyncMsg): nat {
    SetBit(SetBit(m.syncSn, MORE_BIT, m.more), MASTER_BIT, m.master)
  }

  function EncodeSync(m: SyncMsg): (b: Option<Bytes>) {
    var max, flags := 0x1_0000_0000, FlagsAndSyncSn(m);
    var body := if m.more then EncodeEntries(m.trees) else EncodeOptions(m.options);
    if m.mySn < max && m.neighborSn < max && m.neighborBootTime < max && flags < max && body.Some? then
      Some(U32(m.mySn) + U32(m.neighborSn) + U32(m.neighborBootTime) + U32(flags) + body.value)
    else None
  }

  function DecodeSync(data: Bytes): Option<SyncMsg> {
    if |data| < 16 then None
    else
      var flags := Read32(data[12..]);
      var more := flags / MORE_BIT % 2 == 1;
      var trees := if more then DecodeEntries(data[16..]) else Some([]);
      var options := if more then Some([]) else DecodeOptions(data[16..], []);
      if trees.None? || options.None? then None
      else Some(SyncMsg(Read32(data), Read32(data[4..]), Read32(data[8..]), flags % MORE_BIT,
                        trees.value, flags / MASTER_BIT == 1, more, options.value))
  }

  method EntriesBytes(trees: seq<Entry>) returns (msg: Option<Bytes>)
    ensures msg == EncodeEntries(trees)
  {
    msg := Some([]);
    for k := 0 to |trees|
      invariant msg == EncodeEntries(trees[..k])
    {
      var b := EncodeEntry(trees[k]);
      assert trees[..k + 1][..k] == trees[..k];
      msg := if msg.Some? && b.Some? then Some(msg.value + b.value) else None;
    }
    assert trees[..|trees|] == trees;
  }

  method ParseEntries(data: Bytes) returns (trees: Option<seq<Entry>>)
    ensures trees == DecodeEntries(data)
  {
    var rest, found: seq<Entry> := data, [];
    ghost var all := DecodeEntries(data);
    assert all.Some? ==> [] + all.value == all.value;
    while rest != []
      invariant all == if DecodeEntries(rest).Some? then Some(found + DecodeEntries(rest).value) else None
      decreases |rest|
    {
      var e := DecodeEntry(rest);
      if e.None? { return None; }
      ghost var tail := DecodeEntries(rest[ENTRY_LENGTH..]);
      assert tail.Some? ==> found + ([e.value] + tail.value) == (found + [e.value]) + tail.value;
      rest := rest[ENTRY_LENGTH..];
      found := found + [e.value];
    }
    assert found + [] == found;
    return Some(found);
  }

  method SyncBytes(m: SyncMsg) returns (msg: Option<Bytes>)
    ensures msg == EncodeSync(m)
  {
    var max, flags := 0x1_0000_0000, FlagsAndSyncSn(m);
    if m.mySn >= max || m.neighborSn >= max || m.neighborBootTime >= max || flags >= max { return None; }
    var body;
    if m.more {
      body := EntriesBytes(m.trees);
    } else {
      body := OptionsBytes(m.options);
    }
    if body.None? { return None; }
    return Some(U32(m.mySn) + U32(m.neighborSn) + U32(m.neighborBootTime) + U32(flags) + body.value);
  }

  method ParseSync(data: Bytes) returns (m: Option<SyncMsg>)
    ensures m == DecodeSync(data)
  {
    if |data| < 16 { return None; }
    var flags := Read32(data[12..]);
    var more := flags / MORE_BIT % 2 == 1;
    var trees, options := Some([]), Some([]);
    if more {
      trees := ParseEntries(data[16..]);
    } else {
      options := ParseOptions(data[16..]);
    }
    if trees.None? || options.None? { return None; }
    return Some(SyncMsg(Read32(data), Read32(data[4..]), Read32(data[8..]), flags % MORE_BIT,
                        trees.value, flags / MASTER_BIT == 1, more, options.value));
  }

  lemma EntryComesBack(e: Entry, rest: Bytes)
    requires EncodeEntry(e).Some?
    ensures DecodeEntry(EncodeEntry(e).value + rest) == Some(e)
  {
    var data := EncodeEntry(e).value + rest;
    FourNumbers(e.tree.source, e.tree.group, e.metric.preference, e.metric.cost, rest);
  }

  lemma FourNumbers(a: nat, b: nat, c: nat, d: nat, rest: Bytes)
    requires a < 0x1_0000_0000 && b < 0x1_0000_0000 && c < 0x1_0000_0000 && d < 0x1_0000_0000
    ensures var data := U32(a) + U32(b) + U32(c) + U32(d) + rest;
            && |data| == 16 + |rest| && data[16..] == rest
            && Read32(data) == a && Read32(data[4..]) == b && Read32(data[8..]) == c && Read32(data[12..]) == d
  {
    var data := U32(a) + U32(b) + U32(c) + U32(d) + rest;
    assert data == U32(a) + (U32(b) + U32(c) + U32(d) + rest);
    assert data[4..] == U32(b) + (U32(c) + U32(d) + rest);
    assert data[8..] == U32(c) + (U32(d) + rest);
    assert data[12..] == U32(d) + rest;
    Read32Back(a, U32(b) + U32(c) + U32(d) + rest);
    Read32Back(b, U32(c) + U32(d) + rest);
    Read32Back(c, U32(d) + rest);
    Read32Back(d, rest);
  }

  lemma {:induction false} EntriesComeBack(trees: seq<Entry>, rest: Bytes, tail: seq<Entry>)
    requires EncodeEntries(trees).Some? && DecodeEntries(rest) == Some(tail)
    ensures DecodeEntries(EncodeEntries(trees).value + rest) == Some(trees + tail)
  {
    if trees == [] {
      assert [] + rest == rest && trees + tail == tail;
    } else {
      var n := |trees| - 1;
      var last := EncodeEntry(trees[n]).value;
      EntryComesBack(trees[n], rest);
      assert (last + rest)[ENTRY_LENGTH..] == rest;
      EntriesComeBack(trees[..n], last + rest, [trees[n]] + tail);
      assert EncodeEntries(trees).value + rest == EncodeEntries(trees[..n]).value + (last + rest);
      assert trees + tail == trees[..n] + ([trees[n]] + tail);
    }
  }

  lemma FlagsComeBack(m: SyncMsg)
    requires m.syncSn < MORE_BIT
    ensures var f := FlagsAndSyncSn(m);
            && f % MORE_BIT == m.syncSn && (f / MORE_BIT % 2 == 1) == m.more && (f / MASTER_BIT == 1) == m.master
  {
  }

  /** Nothing of a Sync is lost exactly when its number leaves room for the flags and it has no
      options beside trees that follow, and no trees when none follow. */
  predicate Lossless(m: SyncMsg) {
    m.syncSn < MORE_BIT && if m.more then m.options == [] else m.trees == []
  }

  lemma SyncRoundTrip(m: SyncMsg)
    requires OneOfEach(m.options) && EncodeSync(m).Some?
    ensures DecodeSync(EncodeSync(m).value) == Some(m) <==> Lossless(m)
  {
    var flags := FlagsAndSyncSn(m);
    var body := (if m.more then EncodeEntries(m.trees) else EncodeOptions(m.options)).value;
    var data := EncodeSync(m).value;
    FourNumbers(m.mySn, m.neighborSn, m.neighborBootTime, flags, body);
    if Lossless(m) {
      FlagsComeBack(m);
      if m.more {
        assert body + [] == body && m.trees + [] == m.trees;
        EntriesComeBack(m.trees, [], []);
      } else {
        HelloRoundTrip(m.options);
      }
    }
  }

  // ----- What the neighbour machine sends -----

  /** A Sync of the neighbour machine as it goes on the wire. */
  function OnTheWire(p: Packet, options: seq<HelloOption>): SyncMsg
    requires p.Sync?
  {
    SyncMsg(p.mySn, p.neighborSn, p.neighborBootTime, p.syncSn, p.trees, p.master, p.more, options)
  }

  /** A fragment beyond the end of the snapshot is empty, so a Sync without more trees has none. */
  lemma LastFragmentIsEmpty(table: seq<Entry>, size: nat, k: nat)
    requires !More(table, size, k)
    ensures Fragment(table, size, k) == []
  {
    UptoIsMonotone(|table|, size, k);
  }

  /** Options, that is the hold time, are sent only when no trees follow; so whatever an end of an
      adjacency sends survives the wire while the numbers of its fragments fit. */
  lemma MachineSyncsAreLossless(e: End, k: nat, master: bool, options: seq<HelloOption>)
    requires k < MORE_BIT && OneOfEach(options) && (More(e.nb.myTable, e.nb.fragmentation, k) ==> options == [])
    requires EncodeSync(OnTheWire(e.SyncPacket(k, master), options)).Some?
    ensures var m := OnTheWire(e.SyncPacket(k, master), options); DecodeSync(EncodeSync(m).value) == Some(m)
  {
    var m := OnTheWire(e.SyncPacket(k, master), options);
    if !m.more {
      LastFragmentIsEmpty(e.nb.myTable, e.nb.fragmentation, k);
    }
    SyncRoundTrip(m);
  }

  // ----- The header -----

  const HEADER_LENGTH := 8

  datatype Header = Header(bootTime: nat, kind: nat, securityId: nat, securityLength: nat, securityValue: Bytes)

  /** The value is padded with zeroes by the difference of the lengths, whichever is greater. */
  function EmittedValue(h: Header): Bytes {
    if h.securityLength == 0 then []
    else
      var diff := if |h.securityValue| > h.securityLength then |h.securityValue| - h.securityLength
                  else h.securityLength - |h.securityValue|;
      h.securityValue + seq(diff, _ => 0)
  }

  function EncodeHeader(h: Header, payload: Bytes): (b: Option<Bytes>) {
    if h.bootTime < 0x1_0000_0000 && h.kind < 256 && h.securityId < 0x1_0000 && h.securityLength < 256 then
      Some(U32(h.bootTime) + [h.kind] + U16(h.securityId) + [h.securityLength] + EmittedValue(h) + payload)
    else None
  }

  /** The first half of the byte after the BootTime is the version; there are seven kinds of message. */
  function DecodeHeader(data: Bytes): Option<(Header, Bytes)> {
    if |data| < HEADER_LENGTH || data[4] / 16 != 0 || data[4] % 16 > 6 then None
    else
      var rest := data[HEADER_LENGTH..];
      Some((Header(Read32(data), data[4] % 16, Read16(data[5..]), data[7], Take(rest, data[7])), Drop(rest, data[7])))
  }

  lemma HeaderFields(h: Header, tail: Bytes)
    requires h.bootTime < 0x1_0000_0000 && h.kind < 256 && h.securityId < 0x1_0000 && h.securityLength < 256
    ensures var data := U32(h.bootTime) + [h.kind] + U16(h.securityId) + [h.securityLength] + tail;
            && |data| == HEADER_LENGTH + |tail| && data[HEADER_LENGTH..] == tail
            && Read32(data) == h.bootTime && data[4] == h.kind && Read16(data[5..]) == h.securityId && data[7] == h.securityLength
  {
    var data := U32(h.bootTime) + [h.kind] + U16(h.securityId) + [h.securityLength] + tail;
    assert data == U32(h.bootTime) + ([h.kind] + U16(h.securityId) + [h.securityLength] + tail);
    assert data[5..] == U16(h.securityId) + ([h.securityLength] + tail);
    Read32Back(h.bootTime, [h.kind] + U16(h.securityId) + [h.securityLength] + tail);
    Read16Back(h.securityId, [h.securityLength] + tail);
  }

  /** A header, and what it carries, comes back exactly when the security value has the length that
      is given for it; a longer one pushes bytes of its own into the payload. */
  lemma HeaderRoundTrip(h: Header, payload: Bytes)
    requires h.kind <= 6 && EncodeHeader(h, payload).Some?
    ensures DecodeHeader(EncodeHeader(h, payload).value) == Some((h, payload)) <==> |h.securityValue| == h.securityLength
  {
    var v := EmittedValue(h);
    var data := EncodeHeader(h, payload).value;
    assert data == U32(h.bootTime) + [h.kind] + U16(h.securityId) + [h.securityLength] + (v + payload);
    HeaderFields(h, v + payload);
    if |h.securityValue| == h.securityLength {
      assert v == h.securityValue;
      assert Take(v + payload, h.securityLength) == v && Drop(v + payload, h.securityLength) == payload;
    }
  }

  // ----- Where each field lies -----

  /** The number that some bytes stand for in network order, the first of them first. */
  function Number(b: Bytes): nat {
    if b == [] then 0 else Number(b[..|b| - 1]) * 256 + b[|b| - 1]
  }

  lemma TwoBytes(v: nat)
    requires v < 0x1_0000
    ensures Number(U16(v)) == v
  {
    var b := U16(v);
    assert b[..1] == [b[0]] && [b[0]][..0] == [];
    assert Number([b[0]]) == Number([]) * 256 + b[0];
  }

  lemma NumberOfFour(b: Bytes)
    requires |b| == 4
    ensures Number(b) == Read32(b)
  {
    assert b[..3][..2] == b[..2] && b[..2][..1] == b[..1] && b[..1][..0] == [];
    assert Number(b[..1]) == Number([]) * 256 + b[0];
    assert Number(b[..2]) == Number(b[..1]) * 256 + b[1];
    assert Number(b[..3]) == Number(b[..2]) * 256 + b[2];
  }

  lemma FourBytes(v: nat)
    requires v < 0x1_0000_0000
    ensures Number(U32(v)) == v
  {
    Read32Back(v, []);
    assert U32(v) + [] == U32(v);
    NumberOfFour(U32(v));
  }

  lemma FourFields(a: nat, b: nat, c: nat, d: nat, rest: Bytes)
    requires a < 0x1_0000_0000 && b < 0x1_0000_0000 && c < 0x1_0000_0000 && d < 0x1_0000_0000
    ensures var data := U32(a) + U32(b) + U32(c) + U32(d) + rest;
            && |data| == 16 + |rest| && data[16..] == rest
            && Number(data[0..4]) == a && Number(data[4..8]) == b && Number(data[8..12]) == c && Number(data[12..16]) == d
  {
    var data := U32(a) + U32(b) + U32(c) + U32(d) + rest;
    FourBytes(a);
    FourBytes(b);
    FourBytes(c);
    FourBytes(d);
    assert data[0..4] == U32(a) && data[4..8] == U32(b) && data[8..12] == U32(c) && data[12..16] == U32(d);
  }

  /** A tree: source, group, preference and cost, four bytes each. */
  lemma EntryLayout(e: Entry)
    requires EncodeEntry(e).Some?
    ensures var b := EncodeEntry(e).value;
            && |b| == 16 && Number(b[0..4]) == e.tree.source && Number(b[4..8]) == e.tree.group
            && Number(b[8..12]) == e.metric.preference && Number(b[12..16]) == e.metric.cost
  {
    var b := EncodeEntry(e).value;
    assert b == b + [];
    FourFields(e.tree.source, e.tree.group, e.metric.preference, e.metric.cost, []);
  }

  lemma {:induction false} EntriesLayout(trees: seq<Entry>, k: nat)
    requires EncodeEntries(trees).Some? && k < |trees|
    ensures EncodeEntry(trees[k]).Some? && EncodeEntries(trees).value[16 * k..16 * k + 16] == EncodeEntry(trees[k]).value
  {
    var n := |trees| - 1;
    var front := EncodeEntries(trees[..n]).value;
    if k < n {
      EntriesLayout(trees[..n], k);
      assert EncodeEntries(trees).value[16 * k..16 * k + 16] == front[16 * k..16 * k + 16];
    }
  }

  /** A Sync: three numbers of four bytes; then the master flag, the more flag and the SyncSN in one of
      four; then one tree after the other. */
  lemma SyncLayout(m: SyncMsg)
    requires EncodeSync(m).Some? && m.syncSn < MORE_BIT
    ensures var b := EncodeSync(m).value;
            && |b| >= 16 && Number(b[0..4]) == m.mySn && Number(b[4..8]) == m.neighborSn && Number(b[8..12]) == m.neighborBootTime
            && Number(b[12..16]) == (if m.master then 0x8000_0000 else 0) + (if m.more then 0x4000_0000 else 0) + m.syncSn
            && if m.more then
                 && |b| == 16 + 16 * |m.trees|
                 && forall k :: 0 <= k < |m.trees| ==>
                      EncodeEntry(m.trees[k]).Some? && b[16 + 16 * k..32 + 16 * k] == EncodeEntry(m.trees[k]).value
               else Some(b[16..]) == EncodeOptions(m.options)
  {
    var body := if m.more then EncodeEntries(m.trees).value else EncodeOptions(m.options).value;
    var b := EncodeSync(m).value;
    FourFields(m.mySn, m.neighborSn, m.neighborBootTime, FlagsAndSyncSn(m), body);
    if m.more {
      forall k | 0 <= k < |m.trees|
        ensures EncodeEntry(m.trees[k]).Some? && b[16 + 16 * k..32 + 16 * k] == EncodeEntry(m.trees[k]).value
      {
        EntriesLayout(m.trees, k);
        assert b[16..][16 * k..16 * k + 16] == b[16 + 16 * k..32 + 16 * k];
      }
    }
  }

  /** An option: its type, 1 for the hold time and 2 for the CheckpointSN, its length, and the value. */
  lemma OptionLayout(o: HelloOption)
    requires EncodeOption(o).Some?
    ensures var b := EncodeOption(o).value;
            match o
            case Holdtime(seconds) => |b| == 6 && Number(b[0..2]) == 1 && Number(b[2..4]) == 2 && Number(b[4..6]) == seconds
            case CheckpointSn(sn) => |b| == 8 && Number(b[0..2]) == 2 && Number(b[2..4]) == 4 && Number(b[4..8]) == sn
            case UnknownOption(_, _) => false
  {
    var b := EncodeOption(o).value;
    match o
    case Holdtime(seconds) =>
      TwoBytes(1);
      TwoBytes(2);
      TwoBytes(seconds);
      assert b[0..2] == U16(1) && b[2..4] == U16(2) && b[4..6] == U16(seconds);
    case CheckpointSn(sn) =>
      TwoBytes(2);
      TwoBytes(4);
      FourBytes(sn);
      assert b[0..2] == U16(2) && b[2..4] == U16(4) && b[4..8] == U32(sn);
    case UnknownOption(_, _) =>
  }

  /** The header: BootTime in four bytes, version and kind in one, the security identifier in two, the
      length of the security value in one, that value, and the payload. */
  lemma HeaderLayout(h: Header, payload: Bytes)
    requires EncodeHeader(h, payload).Some? && h.kind <= 6
    ensures var b := EncodeHeader(h, payload).value;
            && |b| >= 8 && Number(b[0..4]) == h.bootTime && b[4] / 16 == 0 && b[4] % 16 == h.kind
            && Number(b[5..7]) == h.securityId && b[7] == h.securityLength && b[8..] == EmittedValue(h) + payload
  {
    var b := EncodeHeader(h, payload).value;
    FourBytes(h.bootTime);
    TwoBytes(h.securityId);
    assert b[0..4] == U32(h.bootTime) && b[5..7] == U16(h.securityId);
  }

  // ----- Fragments fit the link -----

  /** The fragment size that start_snapshot derives from the MTU when none is configured. */
  function DerivedFragmentation(mtu: int, ipHeader: int, securityLength: int): int {
    (mtu - ipHeader - HEADER_LENGTH - securityLength - 16) / ENTRY_LENGTH
  }

  lemma OneOptionIsShort(options: seq<HelloOption>)
    requires |options| <= 1 && EncodeOptions(options).Some?
    ensures |EncodeOptions(options).value| <= ENTRY_LENGTH
  {
    if |options| == 1 {
      assert EncodeOptions(options[..0]) == Some([]);
    }
  }

  /** With that size every Sync fits into one packet of the link, header and security value included. */
  lemma FragmentsFit(e: End, k: nat, master: bool, options: seq<HelloOption>, h: Header, mtu: nat, ipHeader: nat)
    requires e.nb.fragmentation == DerivedFragmentation(mtu, ipHeader, h.securityLength) >= 1
    requires |h.securityValue| <= h.securityLength
    requires |options| <= 1 && (More(e.nb.myTable, e.nb.fragmentation, k) ==> options == [])
    requires EncodeSync(OnTheWire(e.SyncPacket(k, master), options)).Some?
    requires EncodeHeader(h, EncodeSync(OnTheWire(e.SyncPacket(k, master), options)).value).Some?
    ensures ipHeader + |EncodeHeader(h, EncodeSync(OnTheWire(e.SyncPacket(k, master), options)).value).value| <= mtu
  {
    var m := OnTheWire(e.SyncPacket(k, master), options);
    FragmentIsBounded(e.nb.myTable, e.nb.fragmentation, k);
    if !m.more {
      OneOptionIsShort(options);
    }
  }

  lemma FragmentIsBounded(table: seq<Entry>, size: nat, k: nat)
    ensures |Fragment(table, size, k)| <= size
  {
    UptoIsMonotone(|table|, size, k);
    assert (k + 1) * size == k * size + size;
  }
}
