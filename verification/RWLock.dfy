/** The writer-preference read/write lock: five primitive locks and two counters, changed one
    step at a time by any number of threads in any interleaving, timeouts included. */
module RWLock {
  import opened Types

  type Thread = nat

  // ----- The code, one place per step -----

  /** A reader's acquire: the four locks it takes, the counter, and what it then lets go. */
  datatype Enter =
    | ReaderEntry | ReaderTry | ReaderCount | ReaderAdd | ReaderTest | ReaderResource
    | ReaderDone1 | ReaderDone2 | ReaderDone3

  /** A reader's acquire after a timeout. */
  datatype GiveUp =
    | TryFailed | CountFailed1 | CountFailed2
    | ResourceFailed1 | ResourceFailed2 | ResourceFailed3 | ResourceFailed4

  /** A reader's release. */
  datatype Leave = LeaveCount | LeaveSub | LeaveTest | LeaveDone

  /** A writer's acquire. */
  datatype Register =
    | WriterCount | WriterAdd | WriterTest | WriterTry | WriterDone | WriterResource
    | WriterFailed1 | WriterFailed2

  /** A writer's release; an acquire that timed out on the resource takes the same path. */
  datatype Quit = WriterFree | QuitCount | QuitSub | QuitTest | QuitDone

  datatype Pc =
    | Idle | Reading | Writing
    | Entering(enter: Enter) | GivingUp(giveUp: GiveUp) | Leaving(leave: Leave)
    | Registering(register: Register) | Quitting(quit: Quit)

  /** The primitive locks are plain: any thread may release one, and a lock knows no owner. */
  datatype Shared = Shared(readEntry: bool, readTry: bool, lockReadCount: bool, lockWriteCount: bool, resource: bool,
                           readCount: int, writeCount: int)

  datatype State = State(shared: Shared, pcs: map<Thread, Pc>)

  /** `Go` is the next step of the code; `Timeout` is a lock that was not obtained in time; the
      others are the calls a client makes. */
  datatype Event = Go | Timeout | BeginRead | BeginWrite | Release

  datatype Act = Act(thread: Thread, event: Event)

  /** What a thread at `pc` does on `e`: nothing if the event is not possible there or blocks. */
  function Move(v: Shared, pc: Pc, e: Event): Option<(Shared, Pc)> {
    match pc
    case Idle =>
      if e.BeginRead? then Some((v, Entering(ReaderEntry)))
      else if e.BeginWrite? then Some((v, Registering(WriterCount)))
      else None
    case Reading => if e.Release? then Some((v, Leaving(LeaveCount))) else None
    case Writing => if e.Release? then Some((v, Quitting(WriterFree))) else None
    case Entering(x) => if e.Go? then EnterGo(v, x) else if e.Timeout? then EnterTimeout(v, x) else None
    case GivingUp(x) => if e.Go? then GiveUpGo(v, x) else None
    case Leaving(x) => if e.Go? then LeaveGo(v, x) else None
    case Registering(x) => if e.Go? then RegisterGo(v, x) else if e.Timeout? then RegisterTimeout(v, x) else None
    case Quitting(x) => if e.Go? then QuitGo(v, x) else None
  }

  function EnterGo(v: Shared, x: Enter): Option<(Shared, Pc)> {
    match x
    case ReaderEntry => if v.readEntry then None else Some((v.(readEntry := true), Entering(ReaderTry)))
    case ReaderTry => if v.readTry then None else Some((v.(readTry := true), Entering(ReaderCount)))
    case ReaderCount => if v.lockReadCount then None else Some((v.(lockReadCount := true), Entering(ReaderAdd)))
    case ReaderAdd => Some((v.(readCount := v.readCount + 1), Entering(ReaderTest)))
    case ReaderTest => Some((v, Entering(if v.readCount == 1 then ReaderResource else ReaderDone1)))
    case ReaderResource => if v.resource then None else Some((v.(resource := true), Entering(ReaderDone1)))
    case ReaderDone1 => Some((v.(lockReadCount := false), Entering(ReaderDone2)))
    case ReaderDone2 => Some((v.(readTry := false), Entering(ReaderDone3)))
    case ReaderDone3 => Some((v.(readEntry := false), Reading))
  }

  function EnterTimeout(v: Shared, x: Enter): Option<(Shared, Pc)> {
    match x
    case ReaderEntry => Some((v, Idle))
    case ReaderTry => Some((v, GivingUp(TryFailed)))
    case ReaderCount => Some((v, GivingUp(CountFailed1)))
    case ReaderResource => Some((v, GivingUp(ResourceFailed1)))
    case _ => None
  }

  function GiveUpGo(v: Shared, x: GiveUp): Option<(Shared, Pc)> {
    match x
    case TryFailed => Some((v.(readEntry := false), Idle))
    case CountFailed1 => Some((v.(readTry := false), GivingUp(CountFailed2)))
    case CountFailed2 => Some((v.(readEntry := false), Idle))
    case ResourceFailed1 => Some((v.(readTry := false), GivingUp(ResourceFailed2)))
    case ResourceFailed2 => Some((v.(readEntry := false), GivingUp(ResourceFailed3)))
    case ResourceFailed3 => Some((v.(readCount := v.readCount - 1), GivingUp(ResourceFailed4)))
    case ResourceFailed4 => Some((v.(lockReadCount := false), Idle))
  }

  function LeaveGo(v: Shared, x: Leave): Option<(Shared, Pc)> {
    match x
    case LeaveCount => if v.lockReadCount then None else Some((v.(lockReadCount := true), Leaving(LeaveSub)))
    case LeaveSub => Some((v.(readCount := v.readCount - 1), Leaving(LeaveTest)))
    case LeaveTest => Some((if v.readCount == 0 then v.(resource := false) else v, Leaving(LeaveDone)))
    case LeaveDone => Some((v.(lockReadCount := false), Idle))
  }

  function RegisterGo(v: Shared, x: Register): Option<(Shared, Pc)> {
    match x
    case WriterCount => if v.lockWriteCount then None else Some((v.(lockWriteCount := true), Registering(WriterAdd)))
    case WriterAdd => Some((v.(writeCount := v.writeCount + 1), Registering(WriterTest)))
    case WriterTest => Some((v, Registering(if v.writeCount == 1 then WriterTry else WriterDone)))
    case WriterTry => if v.readTry then None else Some((v.(readTry := true), Registering(WriterDone)))
    case WriterDone => Some((v.(lockWriteCount := false), Registering(WriterResource)))
    case WriterResource => if v.resource then None else Some((v.(resource := true), Writing))
    case WriterFailed1 => Some((v.(writeCount := v.writeCount - 1), Registering(WriterFailed2)))
    case WriterFailed2 => Some((v.(lockWriteCount := false), Idle))
  }

  function RegisterTimeout(v: Shared, x: Register): Option<(Shared, Pc)> {
    match x
    case WriterCount => Some((v, Idle))
    case WriterTry => Some((v, Registering(WriterFailed1)))
    case WriterResource => Some((v, Quitting(QuitCount)))
    case _ => None
  }

  function QuitGo(v: Shared, x: Quit): Option<(Shared, Pc)> {
    match x
    case WriterFree => Some((v.(resource := false), Quitting(QuitCount)))
    case QuitCount => if v.lockWriteCount then None else Some((v.(lockWriteCount := true), Quitting(QuitSub)))
    case QuitSub => Some((v.(writeCount := v.writeCount - 1), Quitting(QuitTest)))
    case QuitTest => Some((if v.writeCount == 0 then v.(readTry := false) else v, Quitting(QuitDone)))
    case QuitDone => Some((v.(lockWriteCount := false), Idle))
  }

  predicate Enabled(s: State, a: Act) {
    a.thread in s.pcs && Move(s.shared, s.pcs[a.thread], a.event).Some?
  }

  function Next(s: State, a: Act): State
    requires Enabled(s, a)
  {
    var (v, pc) := Move(s.shared, s.pcs[a.thread], a.event).value;
    State(v, s.pcs[a.thread := pc])
  }

  const UNLOCKED := Shared(false, false, false, false, false, 0, 0)

  ghost predicate Run(s: seq<State>, acts: seq<Act>) {
    && |s| == |acts| + 1
    && s[0].shared == UNLOCKED && (forall t :: t in s[0].pcs ==> s[0].pcs[t] == Idle)
    && forall k :: 0 <= k < |acts| ==> Enabled(s[k], acts[k]) && s[k + 1] == Next(s[k], acts[k])
  }

  // ----- Who holds what -----

  /** What a thread holds or is counted for at a place, and, added up, what all threads do.

      entry, tryReader: readers that hold ReadEntry and ReadTry. testing, first, last, other: who
      holds the lock of the counter; first is about to obtain the resource for all readers, or has
      given up on it, and last may have to give it back. inside: readers for which the resource is
      held. Likewise for writers; registered are those for which readers are kept out, and owner is
      the one that has the resource. */
  datatype Census = Census(
    entry: int, testingReader: int, firstReader: int, lastReader: int, otherReader: int, inside: int, tryReader: int,
    testingWriter: int, firstWriter: int, lastWriter: int, otherWriter: int, registered: int, owner: int)

  const NOTHING := Census(0, 0, 0, 0, 0, 0, 0, 0, 0, 0, 0, 0, 0)

  function Weight(pc: Pc): Census {
    match pc
    case Idle => NOTHING
    case Reading => NOTHING.(inside := 1)
    case Writing => NOTHING.(registered := 1, owner := 1)
    case Entering(x) => EnterWeight(x)
    case GivingUp(x) => GiveUpWeight(x)
    case Leaving(x) => LeaveWeight(x)
    case Registering(x) => RegisterWeight(x)
    case Quitting(x) => QuitWeight(x)
  }

  function EnterWeight(x: Enter): Census {
    match x
    case ReaderEntry => NOTHING
    case ReaderTry => NOTHING.(entry := 1)
    case ReaderCount => NOTHING.(entry := 1, tryReader := 1)
    case ReaderAdd => NOTHING.(entry := 1, tryReader := 1, otherReader := 1)
    case ReaderTest => NOTHING.(entry := 1, tryReader := 1, testingReader := 1)
    case ReaderResource => NOTHING.(entry := 1, tryReader := 1, firstReader := 1)
    case ReaderDone1 => NOTHING.(entry := 1, tryReader := 1, otherReader := 1, inside := 1)
    case ReaderDone2 => NOTHING.(entry := 1, tryReader := 1, inside := 1)
    case ReaderDone3 => NOTHING.(entry := 1, inside := 1)
  }

  function GiveUpWeight(x: GiveUp): Census {
    match x
    case TryFailed => NOTHING.(entry := 1)
    case CountFailed1 => NOTHING.(entry := 1, tryReader := 1)
    case CountFailed2 => NOTHING.(entry := 1)
    case ResourceFailed1 => NOTHING.(entry := 1, tryReader := 1, firstReader := 1)
    case ResourceFailed2 => NOTHING.(entry := 1, firstReader := 1)
    case ResourceFailed3 => NOTHING.(firstReader := 1)
    case ResourceFailed4 => NOTHING.(otherReader := 1)
  }

  function LeaveWeight(x: Leave): Census {
    match x
    case LeaveCount => NOTHING.(inside := 1)
    case LeaveSub => NOTHING.(inside := 1, otherReader := 1)
    case LeaveTest => NOTHING.(lastReader := 1)
    case LeaveDone => NOTHING.(otherReader := 1)
  }

  function RegisterWeight(x: Register): Census {
    match x
    case WriterCount => NOTHING
    case WriterAdd => NOTHING.(otherWriter := 1)
    case WriterTest => NOTHING.(testingWriter := 1)
    case WriterTry => NOTHING.(firstWriter := 1)
    case WriterDone => NOTHING.(otherWriter := 1, registered := 1)
    case WriterResource => NOTHING.(registered := 1)
    case WriterFailed1 => NOTHING.(firstWriter := 1)
    case WriterFailed2 => NOTHING.(otherWriter := 1)
  }

  function QuitWeight(x: Quit): Census {
    match x
    case WriterFree => NOTHING.(registered := 1, owner := 1)
    case QuitCount => NOTHING.(registered := 1)
    case QuitSub => NOTHING.(registered := 1, otherWriter := 1)
    case QuitTest => NOTHING.(lastWriter := 1)
    case QuitDone => NOTHING.(otherWriter := 1)
  }

  function Plus(c: Census, d: Census): Census {
    Census(c.entry + d.entry, c.testingReader + d.testingReader, c.firstReader + d.firstReader,
           c.lastReader + d.lastReader, c.otherReader + d.otherReader, c.inside + d.inside,
           c.tryReader + d.tryReader, c.testingWriter + d.testingWriter, c.firstWriter + d.firstWriter,
           c.lastWriter + d.lastWriter, c.otherWriter + d.otherWriter, c.registered + d.registered,
           c.owner + d.owner)
  }

  function Bit(b: bool): nat {
    if b then 1 else 0
  }

  /** One lock has one holder at most, and it is locked while it has; the counter is the number of
      readers counted in; the resource is held by one writer or for all the readers inside. */
  predicate ReadersOk(v: Shared, c: Census) {
    && c.entry == Bit(v.readEntry)
    && c.testingReader + c.firstReader + c.lastReader + c.otherReader == Bit(v.lockReadCount)
    && c.testingReader + c.firstReader + c.inside == v.readCount
    && (c.firstReader > 0 ==> v.readCount == 1)
    && c.owner + Bit(c.inside + c.lastReader > 0) == Bit(v.resource)
  }

  /** The same for writers; ReadTry is held by one reader on its way in or for all the registered writers. */
  predicate WritersOk(v: Shared, c: Census) {
    && c.testingWriter + c.firstWriter + c.lastWriter + c.otherWriter == Bit(v.lockWriteCount)
    && c.testingWriter + c.firstWriter + c.registered == v.writeCount
    && (c.firstWriter > 0 ==> v.writeCount == 1)
    && c.tryReader + Bit(c.registered + c.lastWriter > 0) == Bit(v.readTry)
  }

  predicate NonNegative(c: Census) {
    && c.entry >= 0 && c.testingReader >= 0 && c.firstReader >= 0 && c.lastReader >= 0 && c.otherReader >= 0 &&
    c.inside >= 0 && c.tryReader >= 0 && c.testingWriter >= 0 && c.firstWriter >= 0 && c.lastWriter >= 0 &&
    c.otherWriter >= 0 && c.registered >= 0 && c.owner >= 0
  }

  predicate Fits(v: Shared, others: Census, pc: Pc) {
    ReadersOk(v, Plus(others, Weight(pc))) && WritersOk(v, Plus(others, Weight(pc)))
  }

  // ----- Every step keeps it, whatever the other threads hold -----

  lemma EnterKeepsReaders(v: Shared, others: Census, x: Enter, w: Shared, q: Pc)
    requires NonNegative(others) && Fits(v, others, Entering(x))
    requires EnterGo(v, x) == Some((w, q)) || EnterTimeout(v, x) == Some((w, q))
    ensures ReadersOk(w, Plus(others, Weight(q)))
  {
  }

  lemma EnterKeepsWriters(v: Shared, others: Census, x: Enter, w: Shared, q: Pc)
    requires NonNegative(others) && Fits(v, others, Entering(x))
    requires EnterGo(v, x) == Some((w, q)) || EnterTimeout(v, x) == Some((w, q))
    ensures WritersOk(w, Plus(others, Weight(q)))
  {
  }

  lemma GiveUpKeepsReaders(v: Shared, others: Census, x: GiveUp, w: Shared, q: Pc)
    requires NonNegative(others) && Fits(v, others, GivingUp(x))
    requires GiveUpGo(v, x) == Some((w, q))
    ensures ReadersOk(w, Plus(others, Weight(q)))
  {
  }

  lemma GiveUpKeepsWriters(v: Shared, others: Census, x: GiveUp, w: Shared, q: Pc)
    requires NonNegative(others) && Fits(v, others, GivingUp(x))
    requires GiveUpGo(v, x) == Some((w, q))
    ensures WritersOk(w, Plus(others, Weight(q)))
  {
  }

  lemma LeaveKeepsReaders(v: Shared, others: Census, x: Leave, w: Shared, q: Pc)
    requires NonNegative(others) && Fits(v, others, Leaving(x))
    requires LeaveGo(v, x) == Some((w, q))
    ensures ReadersOk(w, Plus(others, Weight(q)))
  {
  }

  lemma LeaveKeepsWriters(v: Shared, others: Census, x: Leave, w: Shared, q: Pc)
    requires NonNegative(others) && Fits(v, others, Leaving(x))
    requires LeaveGo(v, x) == Some((w, q))
    ensures WritersOk(w, Plus(others, Weight(q)))
  {
  }

  lemma RegisterKeepsReaders(v: Shared, others: Census, x: Register, w: Shared, q: Pc)
    requires NonNegative(others) && Fits(v, others, Registering(x))
    requires RegisterGo(v, x) == Some((w, q)) || RegisterTimeout(v, x) == Some((w, q))
    ensures ReadersOk(w, Plus(others, Weight(q)))
  {
  }

  lemma RegisterKeepsWriters(v: Shared, others: Census, x: Register, w: Shared, q: Pc)
    requires NonNegative(others) && Fits(v, others, Registering(x))
    requires RegisterGo(v, x) == Some((w, q)) || RegisterTimeout(v, x) == Some((w, q))
    ensures WritersOk(w, Plus(others, Weight(q)))
  {
  }

  lemma QuitKeepsReaders(v: Shared, others: Census, x: Quit, w: Shared, q: Pc)
    requires NonNegative(others) && Fits(v, others, Quitting(x))
    requires QuitGo(v, x) == Some((w, q))
    ensures ReadersOk(w, Plus(others, Weight(q)))
  {
  }

  lemma QuitKeepsWriters(v: Shared, others: Census, x: Quit, w: Shared, q: Pc)
    requires NonNegative(others) && Fits(v, others, Quitting(x))
    requires QuitGo(v, x) == Some((w, q))
    ensures WritersOk(w, Plus(others, Weight(q)))
  {
  }

  lemma MoveKeeps(v: Shared, others: Census, pc: Pc, e: Event, w: Shared, q: Pc)
    requires NonNegative(others) && Fits(v, others, pc) && Move(v, pc, e) == Some((w, q))
    ensures Fits(w, others, q)
  {
    match pc
    case Idle =>
    case Reading =>
    case Writing =>
    case Entering(x) => EnterKeepsReaders(v, others, x, w, q); EnterKeepsWriters(v, others, x, w, q);
    case GivingUp(x) => GiveUpKeepsReaders(v, others, x, w, q); GiveUpKeepsWriters(v, others, x, w, q);
    case Leaving(x) => LeaveKeepsReaders(v, others, x, w, q); LeaveKeepsWriters(v, others, x, w, q);
    case Registering(x) => RegisterKeepsReaders(v, others, x, w, q); RegisterKeepsWriters(v, others, x, w, q);
    case Quitting(x) => QuitKeepsReaders(v, others, x, w, q); QuitKeepsWriters(v, others, x, w, q);
  }

  // ----- Counting threads -----

  datatype Slot =
    | Entry | TestingReader | FirstReader | LastReader | OtherReader | Inside | TryReader | TestingWriter |
      FirstWriter | LastWriter | OtherWriter | Registered | Owner

  function Get(c: Census, slot: Slot): int {
    match slot
    case Entry => c.entry
    case TestingReader => c.testingReader
    case FirstReader => c.firstReader
    case LastReader => c.lastReader
    case OtherReader => c.otherReader
    case Inside => c.inside
    case TryReader => c.tryReader
    case TestingWriter => c.testingWriter
    case FirstWriter => c.firstWriter
    case LastWriter => c.lastWriter
    case OtherWriter => c.otherWriter
    case Registered => c.registered
    case Owner => c.owner
  }

  function Counted(slot: Slot): Pc -> bool {
    pc => Get(Weight(pc), slot) == 1
  }

  function Where<P>(pcs: map<Thread, P>, at: P -> bool): set<Thread> {
    set t | t in pcs && at(pcs[t])
  }

  function Count(pcs: map<Thread, Pc>, slot: Slot): int {
    |Where(pcs, Counted(slot))|
  }

  /** For each thing that can be held, how many threads hold it. */
  function Tally(p: map<Thread, Pc>): Census {
    Census(Count(p, Entry), Count(p, TestingReader), Count(p, FirstReader), Count(p, LastReader),
           Count(p, OtherReader), Count(p, Inside), Count(p, TryReader), Count(p, TestingWriter),
           Count(p, FirstWriter), Count(p, LastWriter), Count(p, OtherWriter), Count(p, Registered),
           Count(p, Owner))
  }

  lemma SizeWithout<P>(pcs: map<Thread, P>, t: Thread, at: P -> bool)
    requires t in pcs
    ensures |Where(pcs, at)| == |Where(pcs - {t}, at)| + Bit(at(pcs[t]))
  {
    var others := Where(pcs - {t}, at);
    assert Where(pcs, at) == if at(pcs[t]) then others + {t} else others;
  }

  lemma CountWithout(pcs: map<Thread, Pc>, t: Thread, slot: Slot)
    requires t in pcs
    ensures Count(pcs, slot) == Count(pcs - {t}, slot) + Get(Weight(pcs[t]), slot)
  {
    SizeWithout(pcs, t, Counted(slot));
    WeightIsBit(pcs[t], slot);
  }

  lemma WeightIsBit(pc: Pc, slot: Slot)
    ensures Get(Weight(pc), slot) == 0 || Get(Weight(pc), slot) == 1
  {
    match pc
    case Idle =>
    case Reading =>
    case Writing =>
    case Entering(x) => EnterIsBit(x, slot);
    case GivingUp(x) => GiveUpIsBit(x, slot);
    case Leaving(x) => LeaveIsBit(x, slot);
    case Registering(x) => RegisterIsBit(x, slot);
    case Quitting(x) => QuitIsBit(x, slot);
  }

  lemma EnterIsBit(x: Enter, slot: Slot)
    ensures Get(EnterWeight(x), slot) == 0 || Get(EnterWeight(x), slot) == 1
  {
  }

  lemma GiveUpIsBit(x: GiveUp, slot: Slot)
    ensures Get(GiveUpWeight(x), slot) == 0 || Get(GiveUpWeight(x), slot) == 1
  {
  }

  lemma LeaveIsBit(x: Leave, slot: Slot)
    ensures Get(LeaveWeight(x), slot) == 0 || Get(LeaveWeight(x), slot) == 1
  {
  }

  lemma RegisterIsBit(x: Register, slot: Slot)
    ensures Get(RegisterWeight(x), slot) == 0 || Get(RegisterWeight(x), slot) == 1
  {
  }

  lemma QuitIsBit(x: Quit, slot: Slot)
    ensures Get(QuitWeight(x), slot) == 0 || Get(QuitWeight(x), slot) == 1
  {
  }

  lemma TallyCounts(p: map<Thread, Pc>, slot: Slot)
    ensures Get(Tally(p), slot) == Count(p, slot)
  {
  }

  lemma AddUp(x: Census, y: Census, w: Census)
    requires forall slot :: Get(x, slot) == Get(y, slot) + Get(w, slot)
    ensures x == Plus(y, w)
  {
    assert Get(x, Entry) == Get(y, Entry) + Get(w, Entry);
    assert Get(x, TestingReader) == Get(y, TestingReader) + Get(w, TestingReader);
    assert Get(x, FirstReader) == Get(y, FirstReader) + Get(w, FirstReader);
    assert Get(x, LastReader) == Get(y, LastReader) + Get(w, LastReader);
    assert Get(x, OtherReader) == Get(y, OtherReader) + Get(w, OtherReader);
    assert Get(x, Inside) == Get(y, Inside) + Get(w, Inside);
    assert Get(x, TryReader) == Get(y, TryReader) + Get(w, TryReader);
    assert Get(x, TestingWriter) == Get(y, TestingWriter) + Get(w, TestingWriter);
    assert Get(x, FirstWriter) == Get(y, FirstWriter) + Get(w, FirstWriter);
    assert Get(x, LastWriter) == Get(y, LastWriter) + Get(w, LastWriter);
    assert Get(x, OtherWriter) == Get(y, OtherWriter) + Get(w, OtherWriter);
    assert Get(x, Registered) == Get(y, Registered) + Get(w, Registered);
    assert Get(x, Owner) == Get(y, Owner) + Get(w, Owner);
  }

  lemma TallyWithout(p: map<Thread, Pc>, t: Thread)
    requires t in p
    ensures Tally(p) == Plus(Tally(p - {t}), Weight(p[t])) && NonNegative(Tally(p - {t}))
  {
    var x, y, w := Tally(p), Tally(p - {t}), Weight(p[t]);
    forall slot ensures Get(x, slot) == Get(y, slot) + Get(w, slot) {
      CountWithout(p, t, slot);
      TallyCounts(p, slot);
      TallyCounts(p - {t}, slot);
    }
    AddUp(x, y, w);
  }

  // ----- Over every run -----

  ghost predicate Inv(s: State) {
    ReadersOk(s.shared, Tally(s.pcs)) && WritersOk(s.shared, Tally(s.pcs))
  }

  /** The invariant as one thread at `pc` sees it, next to the other threads. */
  ghost predicate FitsNextTo(v: Shared, others: map<Thread, Pc>, pc: Pc) {
    NonNegative(Tally(others)) && Fits(v, Tally(others), pc)
  }

  lemma InvAt(v: Shared, p: map<Thread, Pc>, t: Thread, others: map<Thread, Pc>)
    requires t in p && others == p - {t}
    ensures Inv(State(v, p)) <==> FitsNextTo(v, others, p[t])
  {
    TallyWithout(p, t);
  }

  lemma StepKeepsFit(v: Shared, others: map<Thread, Pc>, pc: Pc, e: Event, w: Shared, q: Pc)
    requires FitsNextTo(v, others, pc) && Move(v, pc, e) == Some((w, q))
    ensures FitsNextTo(w, others, q)
  {
    MoveKeeps(v, Tally(others), pc, e, w, q);
  }

  lemma SameOthers<P>(p: map<Thread, P>, t: Thread, q: P)
    ensures p[t := q] - {t} == p - {t}
  {
  }

  lemma StepKeepsInv(s: State, a: Act)
    requires Inv(s) && Enabled(s, a)
    ensures Inv(Next(s, a))
  {
    var t := a.thread;
    var others := s.pcs - {t};
    var (w, q) := Move(s.shared, s.pcs[t], a.event).value;
    InvAt(s.shared, s.pcs, t, others);
    StepKeepsFit(s.shared, others, s.pcs[t], a.event, w, q);
    SameOthers(s.pcs, t, q);
    InvAt(w, s.pcs[t := q], t, others);
  }

  lemma NobodyHolds(p: map<Thread, Pc>)
    requires forall t :: t in p ==> p[t] == Idle
    ensures Tally(p) == NOTHING
  {
    forall slot ensures Count(p, slot) == 0 {
      assert Where(p, Counted(slot)) == {};
    }
  }

  lemma FirstIsOk(s: State)
    requires s.shared == UNLOCKED && forall t :: t in s.pcs ==> s.pcs[t] == Idle
    ensures Inv(s)
  {
    NobodyHolds(s.pcs);
    NoReaders(s.shared, Tally(s.pcs));
    NoWriters(s.shared, Tally(s.pcs));
  }

  lemma NoReaders(v: Shared, c: Census)
    requires v == UNLOCKED && c == NOTHING
    ensures ReadersOk(v, c)
  {
  }

  lemma NoWriters(v: Shared, c: Census)
    requires v == UNLOCKED && c == NOTHING
    ensures WritersOk(v, c)
  {
  }

  lemma {:induction false} RunKeepsInv(s: seq<State>, acts: seq<Act>, k: nat)
    requires Run(s, acts) && k <= |acts|
    ensures Inv(s[k])
  {
    if k == 0 {
      FirstIsOk(s[0]);
    } else {
      RunKeepsInv(s, acts, k - 1);
      StepKeepsInv(s[k - 1], acts[k - 1]);
    }
  }

  // ----- Exclusion -----

  lemma OneCounted(p: map<Thread, Pc>, t: Thread, slot: Slot)
    requires t in p && Get(Weight(p[t]), slot) == 1
    ensures Count(p, slot) >= 1
  {
    assert t in Where(p, Counted(slot));
  }

  lemma TwoCounted(p: map<Thread, Pc>, t: Thread, u: Thread, slot: Slot)
    requires t in p && u in p && t != u && Get(Weight(p[t]), slot) == 1 && Get(Weight(p[u]), slot) == 1
    ensures Count(p, slot) >= 2
  {
    assert {t, u} <= Where(p, Counted(slot));
    SizeWithout(p, t, Counted(slot));
    assert u in Where(p - {t}, Counted(slot));
  }

  lemma WriterIsCounted(p: map<Thread, Pc>, t: Thread)
    requires t in p && p[t] == Writing
    ensures Get(Tally(p), Owner) >= 1
  {
    OneCounted(p, t, Owner);
    TallyCounts(p, Owner);
  }

  lemma WritersAreCounted(p: map<Thread, Pc>, t: Thread, u: Thread)
    requires t in p && u in p && t != u && p[t] == Writing && p[u] == Writing
    ensures Get(Tally(p), Owner) >= 2
  {
    TwoCounted(p, t, u, Owner);
    TallyCounts(p, Owner);
  }

  lemma ReaderIsCounted(p: map<Thread, Pc>, t: Thread)
    requires t in p && p[t] == Reading
    ensures Get(Tally(p), Inside) >= 1
  {
    OneCounted(p, t, Inside);
    TallyCounts(p, Inside);
  }

  lemma OwnerIsAlone(v: Shared, c: Census)
    requires ReadersOk(v, c) && WritersOk(v, c) && NonNegative(c)
    ensures c.owner <= 1 && (c.owner == 1 ==> c.inside == 0)
  {
  }

  lemma TallyIsNonNegative(p: map<Thread, Pc>)
    ensures NonNegative(Tally(p))
  {
  }

  lemma WriterIsAlone(s: State, t: Thread, u: Thread)
    requires Inv(s) && t in s.pcs && u in s.pcs && t != u && s.pcs[t] == Writing
    ensures s.pcs[u] != Writing && s.pcs[u] != Reading
  {
    var c := Tally(s.pcs);
    TallyIsNonNegative(s.pcs);
    OwnerIsAlone(s.shared, c);
    WriterIsCounted(s.pcs, t);
    if s.pcs[u] == Writing {
      WritersAreCounted(s.pcs, t, u);
    } else if s.pcs[u] == Reading {
      ReaderIsCounted(s.pcs, u);
    }
  }

  /** While a writer has the lock nobody else does, reader or writer. */
  lemma MutualExclusion(s: seq<State>, acts: seq<Act>, k: nat, t: Thread, u: Thread)
    requires Run(s, acts) && k <= |acts| && t in s[k].pcs && u in s[k].pcs && t != u
    requires s[k].pcs[t] == Writing
    ensures s[k].pcs[u] != Writing && s[k].pcs[u] != Reading
  {
    RunKeepsInv(s, acts, k);
    WriterIsAlone(s[k], t, u);
  }

  // ----- The counters -----

  function CountedReader(): Pc -> bool {
    pc => Weight(pc).testingReader + Weight(pc).firstReader + Weight(pc).inside > 0
  }

  function CountedWriter(): Pc -> bool {
    pc => Weight(pc).testingWriter + Weight(pc).firstWriter + Weight(pc).registered > 0
  }

  /** Each counter is the number of threads that are counted in and not yet counted out. */
  lemma CountersAreExact(s: seq<State>, acts: seq<Act>, k: nat)
    requires Run(s, acts) && k <= |acts|
    ensures s[k].shared.readCount == |Where(s[k].pcs, CountedReader())|
    ensures s[k].shared.writeCount == |Where(s[k].pcs, CountedWriter())|
  {
    RunKeepsInv(s, acts, k);
    CountedReaders(s[k].pcs);
    CountedWriters(s[k].pcs);
  }

  lemma WhereSplits<P(!new)>(p: map<Thread, P>, f: P -> bool, a: P -> bool, b: P -> bool, c: P -> bool)
    requires forall pc :: f(pc) <==> a(pc) || b(pc) || c(pc)
    requires forall pc :: !(a(pc) && b(pc)) && !(a(pc) && c(pc)) && !(b(pc) && c(pc))
    ensures |Where(p, f)| == |Where(p, a)| + |Where(p, b)| + |Where(p, c)|
  {
    var x, y, z := Where(p, a), Where(p, b), Where(p, c);
    assert Where(p, f) == x + y + z;
    assert x !! y && (x + y) !! z;
  }

  lemma CountedReaders(p: map<Thread, Pc>)
    ensures Count(p, TestingReader) + Count(p, FirstReader) + Count(p, Inside) == |Where(p, CountedReader())|
  {
    forall pc ensures ReaderWeights(pc) {
      EachReaderOnce(pc);
    }
    WhereSplits(p, CountedReader(), Counted(TestingReader), Counted(FirstReader), Counted(Inside));
  }

  predicate ReaderWeights(pc: Pc) {
    && (CountedReader()(pc) <==> Counted(TestingReader)(pc) || Counted(FirstReader)(pc) || Counted(Inside)(pc))
    && !(Counted(TestingReader)(pc) && Counted(FirstReader)(pc))
    && !(Counted(TestingReader)(pc) && Counted(Inside)(pc))
    && !(Counted(FirstReader)(pc) && Counted(Inside)(pc))
  }

  lemma EachReaderOnce(pc: Pc)
    ensures ReaderWeights(pc)
  {
  }

  lemma CountedWriters(p: map<Thread, Pc>)
    ensures Count(p, TestingWriter) + Count(p, FirstWriter) + Count(p, Registered) == |Where(p, CountedWriter())|
  {
    forall pc ensures WriterWeights(pc) {
      EachWriterOnce(pc);
    }
    WhereSplits(p, CountedWriter(), Counted(TestingWriter), Counted(FirstWriter), Counted(Registered));
  }

  predicate WriterWeights(pc: Pc) {
    && (CountedWriter()(pc) <==> Counted(TestingWriter)(pc) || Counted(FirstWriter)(pc) || Counted(Registered)(pc))
    && !(Counted(TestingWriter)(pc) && Counted(FirstWriter)(pc))
    && !(Counted(TestingWriter)(pc) && Counted(Registered)(pc))
    && !(Counted(FirstWriter)(pc) && Counted(Registered)(pc))
  }

  lemma EachWriterOnce(pc: Pc)
    ensures WriterWeights(pc)
  {
  }

  // ----- Primitive locks are released only while held -----

  /** The step from `pc` releases no lock that is not locked, which Python would refuse. */
  predicate ReleasesHeld(v: Shared, pc: Pc) {
    match pc
    case Entering(x) =>
      && (x.ReaderDone1? ==> v.lockReadCount) && (x.ReaderDone2? ==> v.readTry) && (x.ReaderDone3? ==> v.readEntry)
    case GivingUp(x) =>
      && (x.TryFailed? || x.CountFailed2? || x.ResourceFailed2? ==> v.readEntry)
      && (x.CountFailed1? || x.ResourceFailed1? ==> v.readTry)
      && (x.ResourceFailed4? ==> v.lockReadCount)
    case Leaving(x) => (x.LeaveTest? && v.readCount == 0 ==> v.resource) && (x.LeaveDone? ==> v.lockReadCount)
    case Registering(x) => x.WriterDone? || x.WriterFailed2? ==> v.lockWriteCount
    case Quitting(x) =>
      && (x.WriterFree? ==> v.resource) && (x.QuitTest? && v.writeCount == 0 ==> v.readTry)
      && (x.QuitDone? ==> v.lockWriteCount)
    case _ => true
  }

  lemma ReleasesAreLegal(s: seq<State>, acts: seq<Act>, k: nat, t: Thread)
    requires Run(s, acts) && k <= |acts| && t in s[k].pcs
    ensures ReleasesHeld(s[k].shared, s[k].pcs[t])
  {
    RunKeepsInv(s, acts, k);
    InvAt(s[k].shared, s[k].pcs, t, s[k].pcs - {t});
    FittingReleasesHeld(s[k].shared, Tally(s[k].pcs - {t}), s[k].pcs[t]);
  }

  lemma FittingReleasesHeld(v: Shared, others: Census, pc: Pc)
    requires NonNegative(others) && Fits(v, others, pc)
    ensures ReleasesHeld(v, pc)
  {
  }

  // ----- No deadlock -----

  /** Some thread can take a step of its own, or holds the lock and can release it. */
  ghost predicate SomebodyCanMove(s: State) {
    exists t :: t in s.pcs && CanMove(s.shared, s.pcs[t])
  }

  predicate CanMove(v: Shared, pc: Pc) {
    Move(v, pc, Go).Some? || Move(v, pc, Release).Some?
  }

  /** The only places where a thread may have to wait. */
  predicate Waits(v: Shared, pc: Pc) {
    match pc
    case Entering(x) =>
      || (x.ReaderEntry? && v.readEntry) || (x.ReaderTry? && v.readTry)
      || (x.ReaderCount? && v.lockReadCount) || (x.ReaderResource? && v.resource)
    case Leaving(x) => x.LeaveCount? && v.lockReadCount
    case Registering(x) =>
      (x.WriterCount? && v.lockWriteCount) || (x.WriterTry? && v.readTry) || (x.WriterResource? && v.resource)
    case Quitting(x) => x.QuitCount? && v.lockWriteCount
    case _ => false
  }

  lemma WaitsOrMoves(v: Shared, pc: Pc)
    requires pc != Idle
    ensures CanMove(v, pc) <==> !Waits(v, pc)
  {
  }

  ghost predicate EverybodyWaits(v: Shared, p: map<Thread, Pc>) {
    forall t :: t in p && p[t] != Idle ==> Waits(v, p[t])
  }

  /** What a waiting thread may hold, and which lock it then waits for. */
  predicate MayHold(v: Shared, slot: Slot) {
    match slot
    case Entry => v.readTry || v.lockReadCount || v.resource
    case TryReader => v.lockReadCount || v.resource
    case FirstReader => v.resource
    case Inside => v.lockReadCount
    case FirstWriter => v.readTry
    case Registered => v.resource || v.lockWriteCount
    case _ => false
  }

  lemma WaiterMayHold(v: Shared, pc: Pc, slot: Slot)
    requires Waits(v, pc) && Get(Weight(pc), slot) == 1
    ensures MayHold(v, slot)
  {
  }

  lemma HeldByWaiter(v: Shared, p: map<Thread, Pc>, slot: Slot)
    requires EverybodyWaits(v, p) && Count(p, slot) > 0
    ensures MayHold(v, slot)
  {
    var t :| t in Where(p, Counted(slot));
    WaiterMayHold(v, p[t], slot);
  }

  /** The locks people wait for form no circle: the invariant rules the last one out, then the one
      before it, and so on back to the entry. */
  lemma NothingToWaitFor(v: Shared, c: Census)
    requires ReadersOk(v, c) && WritersOk(v, c) && NonNegative(c) && forall slot :: Get(c, slot) > 0 ==> MayHold(v, slot)
    ensures !v.readEntry && !v.readTry && !v.lockReadCount && !v.lockWriteCount && !v.resource
  {
    assert Get(c, TestingReader) == Get(c, LastReader) == Get(c, OtherReader) == 0;
    assert Get(c, TestingWriter) == Get(c, LastWriter) == Get(c, OtherWriter) == 0;
    assert Get(c, Owner) == 0;
    assert v.lockReadCount ==> Get(c, FirstReader) > 0;
    assert !v.lockReadCount || v.resource;
    assert v.resource ==> Get(c, Inside) > 0;
    assert !v.resource && !v.lockReadCount;
    assert v.lockWriteCount ==> Get(c, FirstWriter) > 0;
    assert v.readTry ==> Get(c, TryReader) > 0 || Get(c, Registered) > 0;
    assert v.readEntry ==> Get(c, Entry) > 0;
  }

  lemma NobodyIsBlocked(s: State)
    requires Inv(s) && EverybodyWaits(s.shared, s.pcs)
    ensures var v := s.shared; !v.readEntry && !v.readTry && !v.lockReadCount && !v.lockWriteCount && !v.resource
  {
    var c := Tally(s.pcs);
    TallyIsNonNegative(s.pcs);
    forall slot | Get(c, slot) > 0 ensures MayHold(s.shared, slot) {
      TallyCounts(s.pcs, slot);
      HeldByWaiter(s.shared, s.pcs, slot);
    }
    NothingToWaitFor(s.shared, c);
  }

  /** With blocking acquires, whenever a thread is in the middle of a call some thread can move. */
  lemma NoDeadlock(s: seq<State>, acts: seq<Act>, k: nat, t: Thread)
    requires Run(s, acts) && k <= |acts| && t in s[k].pcs && s[k].pcs[t] != Idle
    ensures SomebodyCanMove(s[k])
  {
    RunKeepsInv(s, acts, k);
    if !SomebodyCanMove(s[k]) {
      var v, p := s[k].shared, s[k].pcs;
      forall u | u in p && p[u] != Idle ensures Waits(v, p[u]) {
        WaitsOrMoves(v, p[u]);
      }
      NobodyIsBlocked(s[k]);
      NobodyWaitsForNothing(v, p[t]);
    }
  }

  lemma NobodyWaitsForNothing(v: Shared, pc: Pc)
    requires !v.readEntry && !v.readTry && !v.lockReadCount && !v.lockWriteCount && !v.resource
    ensures !Waits(v, pc)
  {
  }

  // ----- Writers first -----

  /** A reader that has not passed ReadTry, or a thread that is no reader at all. */
  predicate KeptOut(pc: Pc) {
    match pc
    case Entering(x) => x.ReaderEntry? || x.ReaderTry?
    case GivingUp(x) => x.TryFailed?
    case Reading => false
    case Leaving(x) => false
    case _ => true
  }

  lemma WaiterIsCounted(p: map<Thread, Pc>, w: Thread)
    requires w in p && p[w] == Registering(WriterResource)
    ensures Get(Tally(p), Registered) >= 1
  {
    OneCounted(p, w, Registered);
    TallyCounts(p, Registered);
  }

  lemma ReadTryIsTaken(v: Shared, c: Census)
    requires WritersOk(v, c) && NonNegative(c) && c.registered > 0
    ensures v.readTry
  {
  }

  lemma RegisteredHoldsReadTry(v: Shared, p: map<Thread, Pc>, w: Thread)
    requires WritersOk(v, Tally(p)) && w in p && p[w] == Registering(WriterResource)
    ensures v.readTry
  {
    WaiterIsCounted(p, w);
    TallyIsNonNegative(p);
    ReadTryIsTaken(v, Tally(p));
  }

  lemma StaysOut(v: Shared, pc: Pc, e: Event)
    requires KeptOut(pc) && v.readTry && Move(v, pc, e).Some?
    ensures KeptOut(Move(v, pc, e).value.1)
  {
  }

  /** While a writer waits for the resource no reader overtakes it: who had not passed ReadTry when
      it began to wait does not read before it is done waiting. */
  lemma {:induction false} WritersGoFirst(s: seq<State>, acts: seq<Act>, j: nat, k: nat, w: Thread, t: Thread)
    requires Run(s, acts) && j <= k <= |acts|
    requires forall i :: j <= i <= k ==> w in s[i].pcs && s[i].pcs[w] == Registering(WriterResource)
    requires t in s[j].pcs && KeptOut(s[j].pcs[t])
    ensures t in s[k].pcs && KeptOut(s[k].pcs[t])
    decreases k - j
  {
    if j < k {
      WritersGoFirst(s, acts, j, k - 1, w, t);
      StepOfRunKeepsOut(s, acts, k - 1, w, t);
    }
  }

  lemma StepOfRunKeepsOut(s: seq<State>, acts: seq<Act>, i: nat, w: Thread, t: Thread)
    requires Run(s, acts) && i < |acts| && w in s[i].pcs && t in s[i].pcs
    requires s[i].pcs[w] == Registering(WriterResource) && KeptOut(s[i].pcs[t])
    ensures t in s[i + 1].pcs && KeptOut(s[i + 1].pcs[t])
  {
    RunKeepsInv(s, acts, i);
    RegisteredHoldsReadTry(s[i].shared, s[i].pcs, w);
    StepKeepsOut(s[i], acts[i], t);
  }

  lemma StepKeepsOut(s: State, a: Act, t: Thread)
    requires s.shared.readTry && Enabled(s, a) && t in s.pcs && KeptOut(s.pcs[t])
    ensures t in Next(s, a).pcs && KeptOut(Next(s, a).pcs[t])
  {
    if a.thread == t {
      StaysOut(s.shared, s.pcs[t], a.event);
    }
  }
}
