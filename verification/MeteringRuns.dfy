/**
 Metering as a whole: a backend meter, a frontend and a network that may lose, repeat,
 delay and reorder every frame and every acknowledgement, over any number of steps.
 */
module MeteringRuns {
  import opened UsageDeltas
  import opened Meter
  import opened UsageIntake
  import Ledger

  /** The live state of both ends, what the network may still deliver, and the history the
      theorems are about: everything numbered, evicted by a full buffer, discarded as
      unmetered, and every counter reading taken. */
  datatype World = World(
    meter: MeterState,
    disk: MeterState,
    accounts: map<int, Account>,
    frames: set<seq<Delta>>,
    acks: set<map<int, nat>>,
    history: map<int, seq<Delta>>,
    evicted: set<Delta>,
    unmetered: map<int, set<nat>>,
    readings: map<string, seq<Counters>>)
  {
    function AccountOf(p: int): Account { if p in accounts then accounts[p] else Account(0, []) }

    function Numbered(p: int): seq<Delta> { if p in history then history[p] else [] }

    function Discarded(p: int): set<nat> { if p in unmetered then unmetered[p] else {} }

    function Read(iface: string): seq<Counters> { if iface in readings then readings[iface] else [] }
  }

  datatype Step =
    | Sample(paths: seq<PathInfo>, readings: map<string, Counters>, now: int)
    | Send(n: int, frame: seq<Delta>)
    | Deliver(usage: seq<Delta>, env: Env, ack: map<int, nat>)
    | Ack(acked: map<int, nat>, persisted: bool)
    | RestartBackend
    | RestartFrontend

  ghost predicate Init(w: World) {
    && w.meter == w.disk == MeterState(map[], map[], [])
    && w.frames == {} && w.acks == {} && w.evicted == {}
    && (forall p :: w.AccountOf(p) == Account(0, []) && w.Numbered(p) == [] && w.Discarded(p) == {})
    && (forall i :: w.Read(i) == [])
  }

  function Minted(w: World, paths: seq<PathInfo>, readings: map<string, Counters>, now: int): seq<Delta> {
    ScanPaths(Scan(w.meter.last, w.meter.nextSeq, []), paths, readings, now).minted
  }

  function Members(ds: seq<Delta>): set<Delta> {
    set d | d in ds
  }

  ghost predicate SameBackend(w: World, v: World) {
    && v.meter == w.meter && v.disk == w.disk && v.evicted == w.evicted
    && (forall p :: v.Numbered(p) == w.Numbered(p)) && (forall i :: v.Read(i) == w.Read(i))
  }

  ghost predicate SameFrontend(w: World, v: World) {
    forall p :: v.AccountOf(p) == w.AccountOf(p) && v.Discarded(p) == w.Discarded(p)
  }

  ghost predicate SampleStep(w: World, v: World, paths: seq<PathInfo>, readings: map<string, Counters>, now: int) {
    var minted := Minted(w, paths, readings, now);
    var all := w.meter.pending + minted;
    && v.meter == Sampled(w.meter, paths, readings, now)
    && v.disk == v.meter.(pending := if minted == [] then w.disk.pending else v.meter.pending)
    && v.evicted == w.evicted + Members(all[..|all| - |v.meter.pending|])
    && (forall p :: v.Numbered(p) == w.Numbered(p) + OfPath(minted, p))
    && (forall i :: v.Read(i) == ReadOn(w.Read(i), paths, readings, i))
    && SameFrontend(w, v) && v.frames == w.frames && v.acks == w.acks
  }

  ghost predicate DeliverStep(w: World, v: World, usage: seq<Delta>, env: Env, ack: map<int, nat>) {
    && usage in w.frames
    && (forall p :: v.AccountOf(p) == Settled(env, Frame(usage), p, w.AccountOf(p)))
    && (forall p :: v.Discarded(p) == w.Discarded(p) + Unbilled(env, Frame(usage), p, w.AccountOf(p)))
    && (forall p :: AckFor(ack, p) == Acked(env, Frame(usage), p, w.AccountOf(p).mark))
    && SameBackend(w, v) && v.frames == w.frames && v.acks == w.acks + {ack}
  }

  /** The numbers a frame moves an unmetered path's watermark past without billing. */
  function Unbilled(env: Env, ds: seq<Delta>, p: int, a: Account): set<nat> {
    if Settled(env, ds, p, a) != a && !env.Bills(p)
    then set d | d in Accepted(a.mark, OfPath(ds, p)) :: d.num
    else {}
  }

  ghost predicate NextStep(w: World, v: World, step: Step) {
    match step
    case Sample(paths, readings, now) => SampleStep(w, v, paths, readings, now)
    case Send(n, frame) =>
      && FairBatch(w.meter.pending, n, frame)
      && v.frames == w.frames + {frame}
      && SameBackend(w, v) && SameFrontend(w, v) && v.acks == w.acks
    case Deliver(usage, env, ack) => DeliverStep(w, v, usage, env, ack)
    case Ack(acked, persisted) =>
      && acked in w.acks
      && v.meter == w.meter.(pending := Unacked(w.meter.pending, acked))
      && v.disk == (if persisted then w.disk.(pending := v.meter.pending) else w.disk)
      && SameBackend(w, v.(meter := w.meter, disk := w.disk)) && SameFrontend(w, v)
      && v.frames == w.frames && v.acks == w.acks
    case RestartBackend =>
      && v.meter == w.disk
      && SameBackend(w, v.(meter := w.meter)) && SameFrontend(w, v)
      && v.frames == w.frames && v.acks == w.acks
    case RestartFrontend =>
      SameBackend(w, v) && SameFrontend(w, v) && v.frames == w.frames && v.acks == w.acks
  }

  // ---- the invariant ---------------------------------------------------

  /** The delta is the one its path's history carries under its number. */
  predicate Genuine(w: World, d: Delta) {
    1 <= d.num <= |w.Numbered(d.path)| && w.Numbered(d.path)[d.num - 1] == d
  }

  /** No longer owed by the backend: at or below the watermark, or lost to a full buffer. */
  predicate Gone(w: World, d: Delta) {
    d.num <= w.AccountOf(d.path).mark || d in w.evicted
  }

  /** A list of genuine deltas, each path's part in order of number. */
  ghost predicate Ordered(w: World, ds: seq<Delta>) {
    && (forall d :: d in ds ==> Genuine(w, d))
    && (forall p :: Ascending(OfPath(ds, p)))
  }

  /** Everything still owed is in the list. */
  ghost predicate Covers(w: World, ds: seq<Delta>) {
    forall d :: Genuine(w, d) && !Gone(w, d) ==> d in ds
  }

  ghost predicate Buffered(w: World, ds: seq<Delta>) {
    Ordered(w, ds) && Covers(w, ds) && forall d :: d in ds ==> d !in w.evicted
  }

  /** Below each delta it carries, a frame lacks only what is gone. */
  ghost predicate Closed(w: World, f: seq<Delta>) {
    Ordered(w, f) && forall d, e {:trigger d in f, Genuine(w, e)} ::
      d in f && Genuine(w, e) && e.path == d.path && e.num < d.num && !Gone(w, e) ==> e in f
  }

  /** A path's books: billed once each in order, never above the watermark, and below it
      everything billed unless discarded as unmetered or lost to a full buffer. */
  ghost predicate Books(w: World, p: int) {
    var a := w.AccountOf(p);
    && a.mark <= |w.Numbered(p)|
    && Ascending(a.billed)
    && (forall d :: d in a.billed ==> Genuine(w, d) && d.path == p && d.num <= a.mark && d.num !in w.Discarded(p))
    && (forall n :: n in w.Discarded(p) ==> 1 <= n <= a.mark)
    && (forall d :: Genuine(w, d) && d.path == p && d.num <= a.mark ==>
          d in a.billed || d.num in w.Discarded(p) || d in w.evicted)
  }

  ghost predicate Numbering(w: World, p: int) {
    && NumberedFrom(w.Numbered(p), p, 0)
    && Issued(w.meter.nextSeq, p) == Issued(w.disk.nextSeq, p) == |w.Numbered(p)|
  }

  ghost predicate Inv(w: World) {
    && (forall p :: Numbering(w, p))
    && w.disk.last == w.meter.last
    && Buffered(w, w.meter.pending) && Buffered(w, w.disk.pending)
    && (forall f :: f in w.frames ==> Closed(w, f))
    && (forall a, p :: a in w.acks && p in a ==> a[p] <= w.AccountOf(p).mark)
    && (forall d :: d in w.evicted ==> Genuine(w, d))
    && (forall p :: Books(w, p))
  }

  /** Nothing genuine stops being genuine, and nothing gone comes back. */
  ghost predicate Grows(w: World, v: World) {
    && (forall d :: Genuine(w, d) ==> Genuine(v, d))
    && (forall d :: Gone(w, d) ==> Gone(v, d))
    && (forall d :: Genuine(v, d) && d.num <= |w.Numbered(d.path)| ==> Genuine(w, d))
    && (forall p :: |w.Numbered(p)| <= |v.Numbered(p)|)
    && w.evicted <= v.evicted
  }

  lemma InitHolds(w: World)
    requires Init(w)
    ensures Inv(w)
  {}

  // ---- sampling --------------------------------------------------------

  lemma SampleNumbering(w: World, v: World, paths: seq<PathInfo>, readings: map<string, Counters>, now: int, p: int)
    requires Numbering(w, p) && SampleStep(w, v, paths, readings, now)
    ensures Numbering(v, p)
    ensures w.Numbered(p) <= v.Numbered(p)
  {
    var minted := Minted(w, paths, readings, now);
    ScanNumbers(Scan(w.meter.last, w.meter.nextSeq, []), paths, readings, now, p);
    assert v.Numbered(p) == w.Numbered(p) + OfPath(minted, p);
  }

  lemma MintedGenuine(w: World, v: World, paths: seq<PathInfo>, readings: map<string, Counters>, now: int, d: Delta)
    requires Numbering(w, d.path) && SampleStep(w, v, paths, readings, now)
    ensures Genuine(v, d) <==> Genuine(w, d) || d in Minted(w, paths, readings, now)
    ensures d in Minted(w, paths, readings, now) ==> d.num > |w.Numbered(d.path)|
  {
    hide Minted, OfPath, NumberedFrom, Ascending;
    var p := d.path;
    var minted := Minted(w, paths, readings, now);
    MintedNumbers(w, paths, readings, now, p);
    OfPathMembers(minted, p);
    Continued(w.Numbered(p), OfPath(minted, p), p, d);
  }

  lemma MintedNumbers(w: World, paths: seq<PathInfo>, readings: map<string, Counters>, now: int, p: int)
    requires Numbering(w, p)
    ensures NumberedFrom(OfPath(Minted(w, paths, readings, now), p), p, |w.Numbered(p)|)
    ensures Ascending(OfPath(Minted(w, paths, readings, now), p))
  {
    ScanNumbers(Scan(w.meter.last, w.meter.nextSeq, []), paths, readings, now, p);
  }

  lemma Continued(was: seq<Delta>, more: seq<Delta>, p: int, d: Delta)
    requires NumberedFrom(more, p, |was|) && d.path == p
    ensures (1 <= d.num <= |was + more| && (was + more)[d.num - 1] == d) <==>
            (1 <= d.num <= |was| && was[d.num - 1] == d) || d in more
    ensures d in more ==> d.num > |was|
  {
    if d in more {
      var i :| 0 <= i < |more| && more[i] == d;
      assert (was + more)[|was| + i] == d;
    }
    if |was| < d.num <= |was + more| {
      assert (was + more)[d.num - 1] == more[d.num - 1 - |was|];
    }
  }

  lemma SampleGrows(w: World, v: World, paths: seq<PathInfo>, readings: map<string, Counters>, now: int)
    requires (forall p :: Numbering(w, p)) && SampleStep(w, v, paths, readings, now)
    ensures Grows(w, v)
  {
    hide Minted, Numbering;
    forall d
      ensures Genuine(w, d) ==> Genuine(v, d)
      ensures Genuine(v, d) && d.num <= |w.Numbered(d.path)| ==> Genuine(w, d)
    {
      MintedGenuine(w, v, paths, readings, now, d);
    }
    forall p ensures |w.Numbered(p)| <= |v.Numbered(p)| {
      assert v.Numbered(p) == w.Numbered(p) + OfPath(Minted(w, paths, readings, now), p);
    }
    forall d ensures Gone(w, d) ==> Gone(v, d) {
      assert v.AccountOf(d.path) == w.AccountOf(d.path);
    }
  }

  /** Adding newly minted deltas keeps a list in order. */
  lemma AppendMinted(w: World, v: World, ds: seq<Delta>, paths: seq<PathInfo>, readings: map<string, Counters>, now: int)
    requires (forall p :: Numbering(w, p)) && SampleStep(w, v, paths, readings, now) && Ordered(w, ds)
    ensures Ordered(v, ds + Minted(w, paths, readings, now))
  {
    hide Minted, Numbering;
    var minted := Minted(w, paths, readings, now);
    var all := ds + minted;
    forall d | d in all ensures Genuine(v, d) {
      MintedGenuine(w, v, paths, readings, now, d);
    }
    forall p ensures Ascending(OfPath(all, p)) {
      OfPathConcat(ds, minted, p);
      OfPathMembers(ds, p);
      OfPathMembers(minted, p);
      MintedNumbers(w, paths, readings, now, p);
      forall d, e | d in OfPath(ds, p) && e in OfPath(minted, p) ensures d.num < e.num {
        MintedGenuine(w, v, paths, readings, now, e);
        assert Genuine(w, d);
      }
      AscendingJoin(OfPath(ds, p), OfPath(minted, p));
    }
  }

  /** In an ordered list no delta stands on both sides of a cut. */
  lemma Distinct(w: World, a: seq<Delta>, b: seq<Delta>, d: Delta)
    requires Ordered(w, a + b) && d in a
    ensures d !in b
  {
    OfPathConcat(a, b, d.path);
    OfPathMembers(a, d.path);
    OfPathMembers(b, d.path);
    var x, y := OfPath(a, d.path), OfPath(b, d.path);
    assert d in x;
    var i :| 0 <= i < |x| && x[i] == d;
    forall j | 0 <= j < |y|
      ensures y[j] != d
    {
      assert (x + y)[i].num < (x + y)[|x| + j].num;
    }
  }

  lemma OrderedSuffix(w: World, a: seq<Delta>, b: seq<Delta>)
    requires Ordered(w, a + b)
    ensures Ordered(w, b)
  {
    forall d | d in b ensures Genuine(w, d) {
      assert d in a + b;
    }
    forall p ensures Ascending(OfPath(b, p)) {
      OfPathConcat(a, b, p);
      var x, y := OfPath(a, p), OfPath(b, p);
      assert Ascending(OfPath(a + b, p));
      forall i, j | 0 <= i < j < |y| ensures y[i].num < y[j].num {
        assert (x + y)[|x| + i].num < (x + y)[|x| + j].num;
      }
    }
  }

  lemma EmptySample(w: World, v: World, paths: seq<PathInfo>, readings: map<string, Counters>, now: int)
    requires Inv(w) && SampleStep(w, v, paths, readings, now) && Grows(w, v)
    requires Minted(w, paths, readings, now) == []
    ensures Buffered(v, v.meter.pending) && Buffered(v, v.disk.pending) && v.evicted == w.evicted
  {
    hide Numbering, Books, Closed, Buffered;
    forall d ensures Genuine(v, d) ==> Genuine(w, d) {
      MintedGenuine(w, v, paths, readings, now, d);
    }
    assert w.meter.pending + [] == w.meter.pending;
    BufferKept(w, v, w.meter.pending);
    BufferKept(w, v, w.disk.pending);
  }

  lemma SampledBuffer(w: World, v: World, paths: seq<PathInfo>, readings: map<string, Counters>, now: int)
    requires SampleStep(w, v, paths, readings, now) && Minted(w, paths, readings, now) != []
    ensures v.meter.pending == Newest(w.meter.pending + Minted(w, paths, readings, now)) == v.disk.pending
  {}

  /** What a buffer keeps of its old and its new deltas is whole, once those it lets go of count as
      evicted. */
  lemma KeptWhole(w: World, v: World, minted: seq<Delta>, out: seq<Delta>, kept: seq<Delta>)
    requires Buffered(w, w.meter.pending) && w.meter.pending + minted == out + kept && Ordered(v, out + kept)
    requires v.evicted == w.evicted + Members(out) && Grows(w, v)
    requires forall d :: Genuine(v, d) ==> Genuine(w, d) || d in minted
    requires forall d :: d in w.evicted ==> d !in minted
    ensures Buffered(v, kept)
  {
    hide Genuine, Ordered;
    assert Ordered(w, w.meter.pending) && Covers(w, w.meter.pending);
    OrderedSuffix(v, out, kept);
    forall d | d in kept
      ensures d !in v.evicted
    {
      assert d in out + kept;
      if d in out {
        Distinct(v, out, kept, d);
      }
    }
    forall d | Genuine(v, d) && !Gone(v, d)
      ensures d in kept
    {
      assert d in w.meter.pending + minted;
    }
  }

  lemma FullSample(w: World, v: World, paths: seq<PathInfo>, readings: map<string, Counters>, now: int)
    requires Inv(w) && SampleStep(w, v, paths, readings, now) && Grows(w, v)
    requires Minted(w, paths, readings, now) != []
    ensures Buffered(v, v.meter.pending) && v.disk.pending == v.meter.pending
  {
    hide Numbering, Books, Closed, Minted, Buffered, Ordered, Grows, Genuine;
    var minted := Minted(w, paths, readings, now);
    var all, kept := w.meter.pending + minted, v.meter.pending;
    SampledBuffer(w, v, paths, readings, now);
    var out := all[..|all| - |kept|];
    assert all == out + kept;
    BufferedOrdered(w, w.meter.pending);
    AppendMinted(w, v, w.meter.pending, paths, readings, now);
    forall d
      ensures Genuine(v, d) ==> Genuine(w, d) || d in minted
      ensures d in w.evicted ==> d !in minted
    {
      MintedGenuine(w, v, paths, readings, now, d);
      GenuineNumbered(w, d);
    }
    KeptWhole(w, v, minted, out, kept);
  }

  lemma BufferedOrdered(w: World, ds: seq<Delta>)
    requires Buffered(w, ds)
    ensures Ordered(w, ds)
  {}

  lemma GenuineNumbered(w: World, d: Delta)
    ensures Genuine(w, d) ==> d.num <= |w.Numbered(d.path)|
  {}

  /** Sampling keeps the buffer whole: what it had to drop is on the evicted list. */
  lemma SampleBuffers(w: World, v: World, paths: seq<PathInfo>, readings: map<string, Counters>, now: int)
    requires Inv(w) && SampleStep(w, v, paths, readings, now)
    ensures Buffered(v, v.meter.pending) && Buffered(v, v.disk.pending)
    ensures forall d :: d in v.evicted ==> Genuine(v, d)
  {
    SampleGrows(w, v, paths, readings, now);
    if Minted(w, paths, readings, now) == [] {
      EmptySample(w, v, paths, readings, now);
    } else {
      FullSample(w, v, paths, readings, now);
      AppendMinted(w, v, w.meter.pending, paths, readings, now);
    }
  }

  /** A buffer stays whole while nothing new is numbered and nothing new evicted. */
  lemma BufferKept(w: World, v: World, ds: seq<Delta>)
    requires Buffered(w, ds) && Grows(w, v) && v.evicted == w.evicted
    requires forall d :: Genuine(v, d) ==> Genuine(w, d)
    ensures Buffered(v, ds)
  {}

  lemma FramesKept(w: World, v: World, f: seq<Delta>)
    requires Closed(w, f) && Grows(w, v)
    ensures Closed(v, f)
  {
    forall d, e | d in f && Genuine(v, e) && e.path == d.path && e.num < d.num && !Gone(v, e) ensures e in f {
      assert Genuine(w, d);
      assert Genuine(w, e);
    }
  }

  lemma BooksKept(w: World, v: World, p: int)
    requires Books(w, p) && Grows(w, v)
    requires v.AccountOf(p) == w.AccountOf(p) && v.Discarded(p) == w.Discarded(p)
    ensures Books(v, p)
  {
    var a := w.AccountOf(p);
    forall d | Genuine(v, d) && d.path == p && d.num <= a.mark
      ensures d in a.billed || d.num in v.Discarded(p) || d in v.evicted
    {
      assert Genuine(w, d);
    }
  }

  lemma SampleKeeps(w: World, v: World, paths: seq<PathInfo>, readings: map<string, Counters>, now: int)
    requires Inv(w) && SampleStep(w, v, paths, readings, now)
    ensures Inv(v)
  {
    SampleGrows(w, v, paths, readings, now);
    SampleBuffers(w, v, paths, readings, now);
    forall p ensures Numbering(v, p) && Books(v, p) && v.AccountOf(p) == w.AccountOf(p) {
      SampleNumbering(w, v, paths, readings, now, p);
      BooksKept(w, v, p);
    }
    forall f | f in v.frames ensures Closed(v, f) {
      FramesKept(w, v, f);
    }
  }

  // ---- sending and acknowledging ---------------------------------------

  /** A fair batch of a whole buffer is a closed frame. */
  lemma BatchClosed(w: World, pending: seq<Delta>, n: int, f: seq<Delta>)
    requires Buffered(w, pending) && FairBatch(pending, n, f)
    ensures Closed(w, f)
  {
    forall d | d in f ensures Genuine(w, d) && d in OfPath(f, d.path) && d in OfPath(pending, d.path) {
      OfPathMembers(f, d.path);
      OfPathMembers(pending, d.path);
      assert OfPath(f, d.path) <= OfPath(pending, d.path);
    }
    forall p ensures Ascending(OfPath(f, p)) {
      AscendingPrefix(OfPath(f, p), OfPath(pending, p));
    }
    forall d, e | d in f && Genuine(w, e) && e.path == d.path && e.num < d.num && !Gone(w, e) ensures e in f {
      OfPathMembers(f, d.path);
      OfPathMembers(pending, d.path);
      assert e in pending;
      AscendingPrefixClosed(OfPath(f, d.path), OfPath(pending, d.path), d, e);
    }
  }

  /** Deltas an ack covers are no longer owed, so dropping them leaves the buffer whole. */
  lemma AckBuffers(w: World, ds: seq<Delta>, acked: map<int, nat>)
    requires Buffered(w, ds) && forall p :: p in acked ==> acked[p] <= w.AccountOf(p).mark
    ensures Buffered(w, Unacked(ds, acked))
  {
    UnackedMembers(ds, acked);
    forall p ensures Ascending(OfPath(Unacked(ds, acked), p)) {
      UnackedAscending(ds, acked, p);
    }
  }

  /** Where histories and accounts stand still, so does everything said about them. */
  lemma Standstill(w: World, v: World)
    requires Inv(w) && SameFrontend(w, v)
    requires forall p :: v.Numbered(p) == w.Numbered(p)
    requires v.evicted == w.evicted
    ensures Grows(w, v)
    ensures forall d :: Genuine(v, d) <==> Genuine(w, d)
    ensures forall p :: Books(v, p)
  {
    forall d ensures Gone(w, d) ==> Gone(v, d) {
      assert v.AccountOf(d.path) == w.AccountOf(d.path);
    }
    forall d ensures Genuine(v, d) <==> Genuine(w, d) {
      assert v.Numbered(d.path) == w.Numbered(d.path);
    }
    forall p ensures |w.Numbered(p)| <= |v.Numbered(p)| {
      assert v.Numbered(p) == w.Numbered(p);
    }
    forall p ensures Books(v, p) {
      assert v.AccountOf(p) == w.AccountOf(p);
      BooksKept(w, v, p);
    }
  }

  lemma NumberingKept(w: World, v: World)
    requires forall p :: Numbering(w, p)
    requires forall p :: v.Numbered(p) == w.Numbered(p)
    requires v.meter.nextSeq == w.meter.nextSeq || v.meter.nextSeq == w.disk.nextSeq
    requires v.disk.nextSeq == w.disk.nextSeq
    ensures forall p :: Numbering(v, p)
  {
    forall p ensures Numbering(v, p) {
      assert Numbering(w, p) && v.Numbered(p) == w.Numbered(p);
    }
  }

  lemma QuietKeeps(w: World, v: World, step: Step)
    requires Inv(w) && NextStep(w, v, step)
    requires step.Send? || step.Ack? || step.RestartBackend? || step.RestartFrontend?
    ensures Inv(v)
  {
    hide Buffered, Closed, Books, Numbering;
    Standstill(w, v);
    NumberingKept(w, v);
    forall f | f in w.frames ensures Closed(v, f) {
      FramesKept(w, v, f);
    }
    BufferKept(w, v, w.meter.pending);
    BufferKept(w, v, w.disk.pending);
    forall a, p | a in v.acks && p in a ensures a[p] <= v.AccountOf(p).mark {
      assert v.AccountOf(p) == w.AccountOf(p);
    }
    match step {
      case Send(n, frame) =>
        BatchClosed(w, w.meter.pending, n, frame);
        FramesKept(w, v, frame);
      case Ack(acked, persisted) =>
        AckBuffers(v, w.meter.pending, acked);
      case _ =>
    }
  }

  // ---- delivery --------------------------------------------------------

  /** From an ascending list everything new and within reach is accepted. */
  lemma AscendingAccepted(base: nat, ds: seq<Delta>, d: Delta)
    requires Ascending(ds) && d in ds && base < d.num && WithinReach(base, d)
    ensures d in Accepted(base, ds)
  {
    var i :| 0 <= i < |ds| && ds[i] == d;
    assert Record(base, ds, i);
    AcceptedAreRecords(base, ds, d);
  }

  /** The path's part of the frame as applied: in order, and all of it in the frame. */
  lemma PartOfFrame(w: World, usage: seq<Delta>, p: int)
    requires Ordered(w, usage)
    ensures OfPath(Frame(usage), p) <= OfPath(usage, p)
    ensures Ascending(OfPath(Frame(usage), p)) && Ascending(OfPath(usage, p))
    ensures forall d :: d in OfPath(Frame(usage), p) ==> d in usage && d.path == p && Genuine(w, d)
    ensures forall d :: d in usage && d.path == p ==> d in OfPath(usage, p)
  {
    OfPathPrefix(Frame(usage), usage, p);
    AscendingPrefix(OfPath(Frame(usage), p), OfPath(usage, p));
    OfPathMembers(usage, p);
    OfPathMembers(Frame(usage), p);
  }

  /** What a closed frame lets a path accept leaves no gap up to the new watermark. */
  lemma NoGap(w: World, usage: seq<Delta>, p: int, base: nat, d: Delta)
    requires Closed(w, usage) && base == w.AccountOf(p).mark
    requires Genuine(w, d) && d.path == p
    requires base < d.num <= Reached(base, Accepted(base, OfPath(Frame(usage), p)))
    ensures d in Accepted(base, OfPath(Frame(usage), p)) || d in w.evicted
  {
    hide Accepted, OfPath, Frame, Ordered, Ascending;
    ClosedOrdered(w, usage);
    var mine := OfPath(Frame(usage), p);
    var taken := Accepted(base, mine);
    AcceptedShape(base, mine);
    var last := taken[|taken| - 1];
    assert last in taken;
    PartOfFrame(w, usage, p);
    if d.num < last.num && d !in w.evicted {
      assert d in usage;
      AscendingPrefixClosed(mine, OfPath(usage, p), last, d);
      AscendingAccepted(base, mine, d);
    }
  }

  lemma DeliverGrows(w: World, v: World, usage: seq<Delta>, env: Env, ack: map<int, nat>)
    requires DeliverStep(w, v, usage, env, ack)
    ensures Grows(w, v) && forall d :: Genuine(v, d) <==> Genuine(w, d)
  {
    forall d
      ensures Genuine(v, d) <==> Genuine(w, d)
      ensures Gone(w, d) ==> Gone(v, d)
    {
      assert v.Numbered(d.path) == w.Numbered(d.path);
      assert v.AccountOf(d.path) == Settled(env, Frame(usage), d.path, w.AccountOf(d.path));
      SettledAccount(env, Frame(usage), d.path, w.AccountOf(d.path));
    }
    forall p ensures |w.Numbered(p)| <= |v.Numbered(p)| {
      assert v.Numbered(p) == w.Numbered(p);
    }
  }

  /** One delivery keeps a path's books, whatever the frame, the configuration and the outcome. */
  lemma DeliverBooks(w: World, v: World, usage: seq<Delta>, env: Env, ack: map<int, nat>, p: int)
    requires Inv(w) && DeliverStep(w, v, usage, env, ack)
    ensures Books(v, p)
  {
    hide Touches, Accepted, Buffered, Numbering;
    DeliverGrows(w, v, usage, env, ack);
    var a, b := w.AccountOf(p), v.AccountOf(p);
    assert b == Settled(env, Frame(usage), p, a);
    assert v.Discarded(p) == w.Discarded(p) + Unbilled(env, Frame(usage), p, a);
    if b == a {
      assert v.Discarded(p) == w.Discarded(p);
      BooksKept(w, v, p);
    } else {
      MovedBooks(w, v, usage, env, p);
    }
  }

  lemma AcceptedGenuine(w: World, usage: seq<Delta>, p: int, base: nat)
    requires Ordered(w, usage)
    ensures forall d :: d in Accepted(base, OfPath(Frame(usage), p)) ==>
              Genuine(w, d) && d.path == p && base < d.num <= Reached(base, Accepted(base, OfPath(Frame(usage), p)))
    ensures Reached(base, Accepted(base, OfPath(Frame(usage), p))) <= base
            || Reached(base, Accepted(base, OfPath(Frame(usage), p))) <= |w.Numbered(p)|
  {
    var mine := OfPath(Frame(usage), p);
    AcceptedShape(base, mine);
    OfPathMembers(Frame(usage), p);
    var taken := Accepted(base, mine);
    forall d | d in taken ensures Genuine(w, d) && d.path == p {
      assert d in mine && d in Frame(usage) && d in usage;
    }
    if taken != [] {
      assert taken[|taken| - 1] in taken;
    }
  }

  lemma MovedBooks(w: World, v: World, usage: seq<Delta>, env: Env, p: int)
    requires Books(w, p) && Closed(w, usage) && Grows(w, v)
    requires (forall d :: Genuine(v, d) <==> Genuine(w, d)) && v.Numbered(p) == w.Numbered(p)
    requires v.AccountOf(p) == Settled(env, Frame(usage), p, w.AccountOf(p)) != w.AccountOf(p)
    requires v.Discarded(p) == w.Discarded(p) + Unbilled(env, Frame(usage), p, w.AccountOf(p))
    ensures Books(v, p)
  {
    hide Touches, Accepted, Closed, Ordered, Genuine, Reached, Grows;
    var a, b := w.AccountOf(p), v.AccountOf(p);
    var taken := Accepted(a.mark, OfPath(Frame(usage), p));
    ClosedOrdered(w, usage);
    AcceptedGenuine(w, usage, p, a.mark);
    AcceptedShape(a.mark, OfPath(Frame(usage), p));
    AscendingJoin(a.billed, taken);
    MovedGaps(w, v, usage, env, p);
    forall d | d in b.billed ensures Genuine(v, d) && d.path == p && d.num <= b.mark && d.num !in v.Discarded(p) {
      if d in a.billed { assert Genuine(w, d); } else { assert d in taken; }
    }
  }

  /** What a frame moves a mark past was billed, discarded or evicted. */
  lemma MovedGaps(w: World, v: World, usage: seq<Delta>, env: Env, p: int)
    requires Books(w, p) && Closed(w, usage) && Grows(w, v)
    requires forall d :: Genuine(v, d) <==> Genuine(w, d)
    requires v.AccountOf(p) == Settled(env, Frame(usage), p, w.AccountOf(p)) != w.AccountOf(p)
    requires v.Discarded(p) == w.Discarded(p) + Unbilled(env, Frame(usage), p, w.AccountOf(p))
    ensures forall d :: Genuine(v, d) && d.path == p && d.num <= v.AccountOf(p).mark ==>
              d in v.AccountOf(p).billed || d.num in v.Discarded(p) || d in v.evicted
  {
    hide Touches, Accepted, Closed, Ordered, Genuine, Reached;
    var a, b := w.AccountOf(p), v.AccountOf(p);
    forall d | Genuine(v, d) && d.path == p && d.num <= b.mark
      ensures d in b.billed || d.num in v.Discarded(p) || d in v.evicted
    {
      assert Genuine(w, d);
      if d.num > a.mark {
        NoGap(w, usage, p, a.mark, d);
      }
    }
  }

  lemma ClosedOrdered(w: World, f: seq<Delta>)
    requires Closed(w, f)
    ensures Ordered(w, f)
  {}

  lemma DeliverKeeps(w: World, v: World, usage: seq<Delta>, env: Env, ack: map<int, nat>)
    requires Inv(w) && DeliverStep(w, v, usage, env, ack)
    ensures Inv(v)
  {
    hide Buffered, Closed, Books, Numbering, Settled, Acked;
    DeliverGrows(w, v, usage, env, ack);
    NumberingKept(w, v);
    BufferKept(w, v, w.meter.pending);
    BufferKept(w, v, w.disk.pending);
    forall f | f in w.frames ensures Closed(v, f) {
      FramesKept(w, v, f);
    }
    forall p ensures Books(v, p) {
      DeliverBooks(w, v, usage, env, ack, p);
    }
    forall a, p | a in v.acks && p in a ensures a[p] <= v.AccountOf(p).mark {
      assert v.AccountOf(p) == Settled(env, Frame(usage), p, w.AccountOf(p));
      assert AckFor(ack, p) == Acked(env, Frame(usage), p, w.AccountOf(p).mark);
      SettledAccount(env, Frame(usage), p, w.AccountOf(p));
    }
  }

  // ---- whole runs ------------------------------------------------------

  /** A finite run: states and the steps between them, from an empty deployment. */
  ghost predicate Run(ws: seq<World>, steps: seq<Step>) {
    && |ws| == |steps| + 1 && Init(ws[0])
    && forall i :: 0 <= i < |steps| ==> NextStep(ws[i], ws[i + 1], steps[i])
  }

  lemma StepKeeps(w: World, v: World, step: Step)
    requires Inv(w) && NextStep(w, v, step)
    ensures Inv(v)
  {
    match step
    case Sample(paths, readings, now) => SampleKeeps(w, v, paths, readings, now);
    case Deliver(usage, env, ack) => DeliverKeeps(w, v, usage, env, ack);
    case _ => QuietKeeps(w, v, step);
  }

  lemma {:induction false} RunHolds(ws: seq<World>, steps: seq<Step>, i: nat)
    requires Run(ws, steps) && i < |ws|
    ensures Inv(ws[i])
  {
    if i == 0 {
      InitHolds(ws[0]);
    } else {
      RunHolds(ws, steps, i - 1);
      StepKeeps(ws[i - 1], ws[i], steps[i - 1]);
    }
  }

  lemma StepOnward(w: World, v: World, step: Step, p: int)
    requires NextStep(w, v, step)
    ensures w.AccountOf(p).mark <= v.AccountOf(p).mark <= w.AccountOf(p).mark + MAX_SEQUENCE_JUMP
    ensures w.AccountOf(p).billed <= v.AccountOf(p).billed
    ensures forall d :: d in v.AccountOf(p).billed && d !in w.AccountOf(p).billed ==> w.AccountOf(p).mark < d.num
  {
    hide Settled, Acked;
    match step {
      case Deliver(usage, env, ack) =>
        SettledAccount(env, Frame(usage), p, w.AccountOf(p));
        assert v.AccountOf(p) == Settled(env, Frame(usage), p, w.AccountOf(p));
      case Sample(_, _, _) => assert v.AccountOf(p) == w.AccountOf(p);
      case _ => assert v.AccountOf(p) == w.AccountOf(p);
    }
  }

  lemma {:induction false} Onward(ws: seq<World>, steps: seq<Step>, i: nat, j: nat, p: int)
    requires Run(ws, steps) && i <= j < |ws|
    ensures ws[i].AccountOf(p).mark <= ws[j].AccountOf(p).mark
    ensures ws[i].AccountOf(p).billed <= ws[j].AccountOf(p).billed
    ensures forall d :: d in ws[j].AccountOf(p).billed && d !in ws[i].AccountOf(p).billed ==>
              ws[i].AccountOf(p).mark < d.num
    decreases j
  {
    hide NextStep, Init;
    if i < j {
      Onward(ws, steps, i, j - 1, p);
      StepOnward(ws[j - 1], ws[j], steps[j - 1], p);
      PrefixTransitive(ws[i].AccountOf(p).billed, ws[j - 1].AccountOf(p).billed, ws[j].AccountOf(p).billed);
    }
  }

  lemma PrefixTransitive(a: seq<Delta>, b: seq<Delta>, c: seq<Delta>)
    requires a <= b <= c
    ensures a <= c
  {}

  /** At most once: over a whole run watermarks never fall, the ledger only grows, and each
      number of a path is billed at most once, as the delta the meter gave that number. */
  lemma AtMostOnce(ws: seq<World>, steps: seq<Step>, i: nat, j: nat, p: int)
    requires Run(ws, steps) && i <= j < |ws|
    ensures var a, b := ws[i].AccountOf(p), ws[j].AccountOf(p);
            && a.mark <= b.mark && a.billed <= b.billed
            && Ascending(b.billed)
            && (forall d :: d in b.billed ==> 1 <= d.num <= b.mark && Genuine(ws[j], d) && d.path == p)
            && (forall d :: d in b.billed && d !in a.billed ==> a.mark < d.num)
  {
    Onward(ws, steps, i, j, p);
    RunHolds(ws, steps, j);
    assert Books(ws[j], p);
  }

  // ---- nothing is lost -------------------------------------------------

  /** What became of a numbered delta. */
  datatype Fate = Billed | Discarded | Waiting | Evicted

  function FateOf(w: World, d: Delta): Fate {
    if d in w.AccountOf(d.path).billed then Billed
    else if d.num in w.Discarded(d.path) then Discarded
    else if d in w.meter.pending then Waiting
    else Evicted
  }

  /** No loss: at every moment of every run each numbered delta is billed, waiting in the buffer,
      discarded because its path is not metered, or was really dropped by a full buffer; and
      below the watermark nothing is left waiting to be billed. */
  lemma NoLoss(ws: seq<World>, steps: seq<Step>, i: nat, d: Delta)
    requires Run(ws, steps) && i < |ws| && Genuine(ws[i], d)
    ensures var w := ws[i];
            d in w.AccountOf(d.path).billed || d.num in w.Discarded(d.path) || d in w.meter.pending || d in w.evicted
    ensures FateOf(ws[i], d).Evicted? ==> d in ws[i].evicted
    ensures d.num <= ws[i].AccountOf(d.path).mark ==>
              FateOf(ws[i], d).Billed? || FateOf(ws[i], d).Discarded? || d in ws[i].evicted
  {
    RunHolds(ws, steps, i);
    assert Books(ws[i], d.path);
  }

  /** And what is dropped is dropped by a sample that leaves the buffer full. */
  lemma EvictedWhenFull(w: World, v: World, step: Step, d: Delta)
    requires NextStep(w, v, step) && d in v.evicted && d !in w.evicted
    ensures step.Sample? && |v.meter.pending| == 50_000 && d !in w.evicted
    ensures d in w.meter.pending || d in Minted(w, step.paths, step.readings, step.now)
  {
    hide Minted, OfPath, FairBatch, Settled, Acked, Unacked, ReadOn;
    assert step.Sample?;
    var minted := Minted(w, step.paths, step.readings, step.now);
    var all := w.meter.pending + minted;
    DropsWhenFull(w, v, step.paths, step.readings, step.now);
    var out := all[..|all| - |v.meter.pending|];
    assert d in Members(out) && d in out && d in all;
  }

  lemma DropsWhenFull(w: World, v: World, paths: seq<PathInfo>, readings: map<string, Counters>, now: int)
    requires SampleStep(w, v, paths, readings, now)
    ensures |w.meter.pending + Minted(w, paths, readings, now)| > |v.meter.pending| ==> |v.meter.pending| == 50_000
  {}

  /** Every delta an acknowledgement makes the backend forget is settled at the frontend. */
  lemma AckedIsSettled(ws: seq<World>, steps: seq<Step>, i: nat, d: Delta)
    requires Run(ws, steps) && i < |steps| && steps[i].Ack?
    requires d in ws[i].meter.pending && d !in ws[i + 1].meter.pending
    ensures FateOf(ws[i], d).Billed? || FateOf(ws[i], d).Discarded?
  {
    RunHolds(ws, steps, i);
    assert NextStep(ws[i], ws[i + 1], steps[i]);
    UnackedMembers(ws[i].meter.pending, steps[i].acked);
    assert Books(ws[i], d.path);
  }

  /** And what arrives is billed: once a delivery to a metered, readable path has committed, every delta
      of the path among the frame's first thousand that was above the watermark and within reach is on
      its books, and the watermark stands at least as high. */
  lemma DeliveryBills(ws: seq<World>, steps: seq<Step>, i: nat, k: nat, d: Delta)
    requires Run(ws, steps) && i < |steps| && steps[i].Deliver?
    requires k < 1000 && k < |steps[i].usage| && steps[i].usage[k] == d
    requires var env := steps[i].env;
             && d.path in env.paths && env.paths[d.path].metered && d.path !in env.unreadable
             && env.outcome(d.path) == Ledger.Committed
    requires ws[i].AccountOf(d.path).mark < d.num <= ws[i].AccountOf(d.path).mark + MAX_SEQUENCE_JUMP
    requires d.num <= MAX_DELTA_SEQUENCE
    ensures d in ws[i + 1].AccountOf(d.path).billed && d.num <= ws[i + 1].AccountOf(d.path).mark
  {
    hide Accepted, OfPath, Inv, IsRecord, Settled, Acked, NextStep;
    var usage, p, a := steps[i].usage, d.path, ws[i].AccountOf(d.path);
    var mine := OfPath(Frame(usage), p);
    assert Frame(usage)[k] == d && d in Frame(usage);
    RunHolds(ws, steps, i);
    assert NextStep(ws[i], ws[i + 1], steps[i]);
    Delivered(ws[i], ws[i + 1], steps[i], p);
    PartOfFrame(ws[i], usage, p);
    OfPathMembers(Frame(usage), p);
    CommittedFrame(steps[i].env, Frame(usage), p, a);
    AscendingAccepted(a.mark, mine, d);
    AcceptedAreRecords(a.mark, mine, d);
  }

  lemma Delivered(w: World, v: World, step: Step, p: int)
    requires Inv(w) && NextStep(w, v, step) && step.Deliver?
    ensures Ordered(w, step.usage)
    ensures v.AccountOf(p) == Settled(step.env, Frame(step.usage), p, w.AccountOf(p))
  {
    assert Closed(w, step.usage);
  }

  /** The bytes of the deltas of a list that met a given fate. */
  function BytesWith(w: World, ds: seq<Delta>, fate: Fate): int {
    if ds == [] then 0
    else
      var d := ds[|ds| - 1];
      BytesWith(w, ds[..|ds| - 1], fate) + if FateOf(w, d) == fate then d.bytes else 0
  }

  lemma {:induction false} FatesPartition(w: World, ds: seq<Delta>)
    ensures SumBytes(ds) == BytesWith(w, ds, Billed) + BytesWith(w, ds, Discarded)
                            + BytesWith(w, ds, Waiting) + BytesWith(w, ds, Evicted)
  {
    hide FateOf;
    if ds != [] {
      FatesPartition(w, ds[..|ds| - 1]);
    }
  }

  /** Bytes billed, counted over the history, are the bytes of the books. */
  lemma {:induction false} BooksTotal(w: World, whole: seq<Delta>, sub: seq<Delta>, p: int)
    requires Ascending(whole) && Ascending(sub)
    requires forall d :: d in sub ==> d in whole
    requires forall d :: d in whole ==> (d in sub <==> FateOf(w, d).Billed?)
    ensures BytesWith(w, whole, Billed) == SumBytes(sub)
  {
    hide FateOf;
    assert forall i :: 0 <= i < |sub| ==> sub[i] in sub;
    if whole != [] {
      var front, e := whole[..|whole| - 1], whole[|whole| - 1];
      BelowLast(whole);
      if e in sub {
        LastOfAscending(sub, e);
        var rest := sub[..|sub| - 1];
        BelowLast(sub);
        BooksTotal(w, front, rest, p);
      } else {
        BooksTotal(w, front, sub, p);
      }
    }
  }

  lemma BelowLast(ds: seq<Delta>)
    requires Ascending(ds) && ds != []
    ensures var front, e := ds[..|ds| - 1], ds[|ds| - 1];
            && Ascending(front) && e !in front
            && (forall d :: d in front ==> d.num < e.num)
            && (forall d :: d in ds <==> d in front || d == e)
  {
    var front, e := ds[..|ds| - 1], ds[|ds| - 1];
    assert ds == front + [e];
    AscendingPrefix(front, ds);
    forall d | d in front ensures d.num < e.num {
      var i :| 0 <= i < |front| && front[i] == d;
      assert ds[i].num < ds[|ds| - 1].num;
    }
  }

  lemma LastOfAscending(sub: seq<Delta>, e: Delta)
    requires Ascending(sub) && e in sub && forall d :: d in sub ==> d.num <= e.num
    ensures sub[|sub| - 1] == e
  {
    var last := sub[|sub| - 1];
    assert last in sub;
    var i :| 0 <= i < |sub| && sub[i] == e;
  }

  /** Every path the step samples sits on its own interface. */
  ghost predicate HomedStep(step: Step, id: int, iface: string) {
    step.Sample? ==> Homed(step.paths, id, iface)
  }

  ghost predicate Metering(w: World, id: int, iface: string) {
    && Remembers(w.meter.last, iface, w.Read(iface))
    && SumBytes(w.Numbered(id)) == Growth(w.Read(iface))
  }

  lemma StepMeters(w: World, v: World, step: Step, id: int, iface: string)
    requires Inv(w) && NextStep(w, v, step) && HomedStep(step, id, iface) && Metering(w, id, iface)
    ensures Metering(v, id, iface)
  {
    hide Buffered, Closed, Books, Numbering, Remembers, Settled, Acked, FairBatch;
    match step {
      case Sample(paths, readings, now) =>
        ScanGrowth(Scan(w.meter.last, w.meter.nextSeq, []), paths, readings, now, id, iface, w.Read(iface));
        var minted := Minted(w, paths, readings, now);
        SumBytesConcat(w.Numbered(id), OfPath(minted, id));
        assert v.Numbered(id) == w.Numbered(id) + OfPath(minted, id);
        assert v.Read(iface) == ReadOn(w.Read(iface), paths, readings, iface);
      case _ =>
        assert v.Numbered(id) == w.Numbered(id) && v.Read(iface) == w.Read(iface);
    }
  }

  lemma {:induction false} RunMeters(ws: seq<World>, steps: seq<Step>, i: nat, id: int, iface: string)
    requires Run(ws, steps) && i < |ws|
    requires forall k :: 0 <= k < |steps| ==> HomedStep(steps[k], id, iface)
    ensures Metering(ws[i], id, iface)
  {
    hide NextStep;
    if i == 0 {
      assert ws[0].Numbered(id) == [] && ws[0].Read(iface) == [];
    } else {
      RunMeters(ws, steps, i - 1, id, iface);
      RunHolds(ws, steps, i - 1);
      StepMeters(ws[i - 1], ws[i], steps[i - 1], id, iface);
    }
  }

  /** Conservation: in every state of every run the growth of an interface's counters over all
      readings equals the bytes billed to its path, plus those still waiting in the buffer, plus
      those a full buffer dropped before they were billed, plus those discarded as unmetered. */
  lemma Conservation(ws: seq<World>, steps: seq<Step>, i: nat, id: int, iface: string)
    requires Run(ws, steps) && i < |ws|
    requires forall k :: 0 <= k < |steps| ==> HomedStep(steps[k], id, iface)
    ensures var w := ws[i];
            Growth(w.Read(iface)) == SumBytes(w.AccountOf(id).billed) + BytesWith(w, w.Numbered(id), Waiting)
              + BytesWith(w, w.Numbered(id), Evicted) + BytesWith(w, w.Numbered(id), Discarded)
  {
    var w := ws[i];
    RunHolds(ws, steps, i);
    RunMeters(ws, steps, i, id, iface);
    FatesPartition(w, w.Numbered(id));
    BilledBytes(w, id);
  }

  /** A path every delivery finds metered has nothing discarded, so its balance has three terms. */
  lemma {:induction false} MeteredKeepsAll(ws: seq<World>, steps: seq<Step>, i: nat, p: int)
    requires Run(ws, steps) && i < |ws|
    requires forall k :: 0 <= k < |steps| && steps[k].Deliver? ==>
               p in steps[k].env.paths && steps[k].env.paths[p].metered
    ensures ws[i].Discarded(p) == {}
    ensures BytesWith(ws[i], ws[i].Numbered(p), Discarded) == 0
  {
    hide Settled, Acked;
    if i > 0 {
      MeteredKeepsAll(ws, steps, i - 1, p);
      assert NextStep(ws[i - 1], ws[i], steps[i - 1]);
      assert steps[i - 1].Deliver? ==>
          ws[i].Discarded(p) == ws[i - 1].Discarded(p)
                                + Unbilled(steps[i - 1].env, Frame(steps[i - 1].usage), p, ws[i - 1].AccountOf(p));
      assert !steps[i - 1].Deliver? ==> ws[i].Discarded(p) == ws[i - 1].Discarded(p);
    }
    RunHolds(ws, steps, i);
    assert Numbering(ws[i], p);
    NoneDiscarded(ws[i], ws[i].Numbered(p), p);
  }

  lemma {:induction false} NoneDiscarded(w: World, ds: seq<Delta>, p: int)
    requires w.Discarded(p) == {} && forall d :: d in ds ==> d.path == p
    ensures BytesWith(w, ds, Discarded) == 0
  {
    if ds != [] {
      NoneDiscarded(w, ds[..|ds| - 1], p);
    }
  }

  lemma BilledBytes(w: World, p: int)
    requires Inv(w)
    ensures BytesWith(w, w.Numbered(p), Billed) == SumBytes(w.AccountOf(p).billed)
  {
    assert Numbering(w, p) && Books(w, p);
    var whole, sub := w.Numbered(p), w.AccountOf(p).billed;
    forall d | d in sub ensures d in whole {
      assert Genuine(w, d);
    }
    BooksTotal(w, whole, sub, p);
  }
}
