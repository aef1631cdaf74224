/**
 The backend's meter: it turns interface counters into numbered deltas, buffers
 them until the frontend acknowledges them, and picks fair batches to send.
 */
module Meter {
  import opened UsageDeltas
  import opened Words

  /** Sums of the receive and transmit counters of one interface. */
  datatype Counters = Counters(bytes: int, packets: int)

  datatype PathInfo = PathInfo(id: int, iface: string, metered: bool)

  datatype MeterState = MeterState(
    last: map<string, Counters>, nextSeq: map<int, nat>, pending: seq<Delta>)

  /** The highest number issued for a path; a path never sampled stands at zero. */
  function Issued(nextSeq: map<int, nat>, p: int): nat {
    if p in nextSeq then nextSeq[p] else 0
  }

  // ---- sampling --------------------------------------------------------

  datatype Scan = Scan(last: map<string, Counters>, nextSeq: map<int, nat>, minted: seq<Delta>)

  /** Traffic between two readings; a counter that fell is a new baseline, not traffic. */
  function Rise(prev: Counters, cur: Counters): Counters {
    if cur.bytes < prev.bytes || cur.packets < prev.packets then Counters(0, 0)
    else Counters(cur.bytes - prev.bytes, cur.packets - prev.packets)
  }

  /** The delta one reading of a path earns, if any. */
  function Increment(s: Scan, p: PathInfo, readings: map<string, Counters>, now: int): (r: seq<Delta>)
    ensures |r| <= 1
  {
    if !p.metered || p.iface !in readings || p.iface !in s.last then []
    else
      var rise := Rise(s.last[p.iface], readings[p.iface]);
      if rise == Counters(0, 0) then []
      else [Delta(p.id, rise.bytes, rise.packets, now, Issued(s.nextSeq, p.id) + 1)]
  }

  function ScanPath(s: Scan, p: PathInfo, readings: map<string, Counters>, now: int): Scan {
    var more := Increment(s, p, readings, now);
    Scan(if p.metered && p.iface in readings then s.last[p.iface := readings[p.iface]] else s.last,
         if more != [] then s.nextSeq[p.id := more[0].num] else s.nextSeq,
         s.minted + more)
  }

  function ScanPaths(s: Scan, paths: seq<PathInfo>, readings: map<string, Counters>, now: int): Scan {
    if paths == [] then s
    else ScanPath(ScanPaths(s, paths[..|paths| - 1], readings, now), paths[|paths| - 1], readings, now)
  }

  lemma NoScan(s: Scan, readings: map<string, Counters>, now: int)
    ensures ScanPaths(s, [], readings, now) == s
  {}

  lemma ScanNext(s: Scan, paths: seq<PathInfo>, i: nat, readings: map<string, Counters>, now: int)
    requires i < |paths|
    ensures ScanPaths(s, paths[..i + 1], readings, now) ==
            ScanPath(ScanPaths(s, paths[..i], readings, now), paths[i], readings, now)
  {
    assert paths[..i + 1][..i] == paths[..i];
  }

  lemma ScanShift(s: Scan, p: PathInfo, readings: map<string, Counters>, now: int)
    ensures var z := ScanPath(Scan(s.last, s.nextSeq, []), p, readings, now);
            ScanPath(s, p, readings, now) == Scan(z.last, z.nextSeq, s.minted + z.minted)
  {}

  /** The newest deltas a bounded buffer keeps. */
  function Newest(ds: seq<Delta>): (r: seq<Delta>)
    ensures |r| <= |ds| && |r| <= MAX_BUFFERED
    ensures r == ds[|ds| - |r|..]
    ensures |r| < |ds| ==> |r| == MAX_BUFFERED
  {
    if |ds| > MAX_BUFFERED then ds[|ds| - MAX_BUFFERED..] else ds
  }

  function Sampled(m: MeterState, paths: seq<PathInfo>, readings: map<string, Counters>, now: int): MeterState {
    var s := ScanPaths(Scan(m.last, m.nextSeq, []), paths, readings, now);
    MeterState(s.last, s.nextSeq, if s.minted == [] then m.pending else Newest(m.pending + s.minted))
  }

  /** A run of deltas continuing a path's numbering: `from+1, from+2, ...`. */
  predicate NumberedFrom(ds: seq<Delta>, p: int, from: nat) {
    forall i :: 0 <= i < |ds| ==> ds[i].path == p && ds[i].num == from + 1 + i
  }

  lemma NumberedSnoc(ds: seq<Delta>, d: Delta, p: int, from: nat)
    requires NumberedFrom(ds, p, from) && d.path == p && d.num == from + 1 + |ds|
    ensures NumberedFrom(ds + [d], p, from)
  {}

  lemma ScanPathNumbers(mid: Scan, path: PathInfo, readings: map<string, Counters>, now: int, p: int, from: nat)
    requires NumberedFrom(OfPath(mid.minted, p), p, from)
    requires Issued(mid.nextSeq, p) == from + |OfPath(mid.minted, p)|
    ensures var r := ScanPath(mid, path, readings, now);
            && NumberedFrom(OfPath(r.minted, p), p, from)
            && Issued(r.nextSeq, p) == from + |OfPath(r.minted, p)|
  {
    hide NumberedFrom, OfPath;
    var more := Increment(mid, path, readings, now);
    if more == [] {
      assert mid.minted + more == mid.minted;
    } else {
      OfPathSnoc(mid.minted, more[0], p);
      assert mid.minted + more == mid.minted + [more[0]];
      if path.id == p {
        NumberedSnoc(OfPath(mid.minted, p), more[0], p, from);
      }
    }
  }

  /** One pass numbers each path's new deltas consecutively from where the path stood. */
  lemma {:induction false} ScanNumbers(s: Scan, paths: seq<PathInfo>, readings: map<string, Counters>, now: int, p: int)
    requires s.minted == []
    ensures var r := ScanPaths(s, paths, readings, now);
            && NumberedFrom(OfPath(r.minted, p), p, Issued(s.nextSeq, p))
            && Issued(r.nextSeq, p) == Issued(s.nextSeq, p) + |OfPath(r.minted, p)|
  {
    hide ScanPath, NumberedFrom;
    if paths == [] {
      NoneNumbered(p, Issued(s.nextSeq, p));
    } else {
      var front := paths[..|paths| - 1];
      ScanNumbers(s, front, readings, now, p);
      ScanPathNumbers(ScanPaths(s, front, readings, now), paths[|paths| - 1], readings, now, p, Issued(s.nextSeq, p));
    }
  }

  /** No two of the paths share an id or an interface. */
  predicate Apart(paths: seq<PathInfo>) {
    forall i, j :: 0 <= i < j < |paths| ==> paths[i].id != paths[j].id && paths[i].iface != paths[j].iface
  }

  /** What one path earns from its interface's reading before and now: the two differences under the
      next number where neither counter fell and one rose, and nothing in any other case. */
  ghost predicate Earns(p: PathInfo, last: map<string, Counters>, issued: nat, readings: map<string, Counters>,
                        now: int, got: seq<Delta>) {
    if p.metered && p.iface in readings && p.iface in last
       && readings[p.iface].bytes >= last[p.iface].bytes && readings[p.iface].packets >= last[p.iface].packets
       && readings[p.iface] != last[p.iface]
    then got == [Delta(p.id, readings[p.iface].bytes - last[p.iface].bytes,
                       readings[p.iface].packets - last[p.iface].packets, now, issued + 1)]
    else got == []
  }

  /** Two moments of a pass that are alike for one path. */
  predicate SameFor(s: Scan, r: Scan, p: PathInfo) {
    && OfPath(r.minted, p.id) == OfPath(s.minted, p.id)
    && Issued(r.nextSeq, p.id) == Issued(s.nextSeq, p.id)
    && (p.iface in r.last <==> p.iface in s.last)
    && (p.iface in s.last ==> r.last[p.iface] == s.last[p.iface])
  }

  lemma OtherPath(s: Scan, q: PathInfo, readings: map<string, Counters>, now: int, p: PathInfo)
    requires q.id != p.id && q.iface != p.iface
    ensures SameFor(s, ScanPath(s, q, readings, now), p)
  {
    var more := Increment(s, q, readings, now);
    OfPathConcat(s.minted, more, p.id);
    OnlyPath(more, q.id, p.id);
  }

  lemma OwnPath(s: Scan, mid: Scan, p: PathInfo, readings: map<string, Counters>, now: int)
    requires SameFor(s, mid, p) && OfPath(s.minted, p.id) == []
    ensures Earns(p, s.last, Issued(s.nextSeq, p.id), readings, now, OfPath(ScanPath(mid, p, readings, now).minted, p.id))
  {
    hide OfPath;
    var more := Increment(mid, p, readings, now);
    OfPathConcat(mid.minted, more, p.id);
    OnlyPath(more, p.id, p.id);
  }

  lemma {:induction false} OtherPaths(s: Scan, paths: seq<PathInfo>, readings: map<string, Counters>, now: int, p: PathInfo)
    requires forall q :: q in paths ==> q.id != p.id && q.iface != p.iface
    ensures SameFor(s, ScanPaths(s, paths, readings, now), p)
  {
    hide ScanPath, OfPath;
    if paths != [] {
      var front, q := paths[..|paths| - 1], paths[|paths| - 1];
      assert q in paths;
      OtherPaths(s, front, readings, now, p);
      OtherPath(ScanPaths(s, front, readings, now), q, readings, now, p);
    }
  }

  /** One pass gives each path exactly what its own two readings earn it. */
  lemma {:induction false} PassMints(s: Scan, paths: seq<PathInfo>, readings: map<string, Counters>, now: int, i: nat)
    requires s.minted == [] && Apart(paths) && i < |paths|
    ensures Earns(paths[i], s.last, Issued(s.nextSeq, paths[i].id), readings, now,
                  OfPath(ScanPaths(s, paths, readings, now).minted, paths[i].id))
  {
    hide ScanPath, Earns, OfPath;
    var front, p, q := paths[..|paths| - 1], paths[i], paths[|paths| - 1];
    var mid := ScanPaths(s, front, readings, now);
    if i < |front| {
      PassMints(s, front, readings, now, i);
      OtherPath(mid, q, readings, now, p);
    } else {
      OtherPaths(s, front, readings, now, p);
      NoneOf(p.id);
      OwnPath(s, mid, p, readings, now);
    }
  }

  lemma NoneOf(p: int)
    ensures OfPath([], p) == []
  {}

  lemma NoneNumbered(p: int, from: nat)
    ensures NumberedFrom([], p, from)
  {}

  // ---- counter growth --------------------------------------------------

  /** Bytes by which a history of readings grew, skipping every fall. */
  function Growth(history: seq<Counters>): int {
    if |history| < 2 then 0
    else Growth(history[..|history| - 1]) + Rise(history[|history| - 2], history[|history| - 1]).bytes
  }

  function ReadingOf(p: PathInfo, readings: map<string, Counters>, iface: string): seq<Counters> {
    if p.metered && p.iface == iface && iface in readings then [readings[iface]] else []
  }

  /** An interface's history after one pass: one more reading per metered path on it. */
  function ReadOn(history: seq<Counters>, paths: seq<PathInfo>, readings: map<string, Counters>, iface: string):
    seq<Counters>
  {
    if paths == [] then history
    else ReadOn(history, paths[..|paths| - 1], readings, iface) + ReadingOf(paths[|paths| - 1], readings, iface)
  }

  /** Every path id of `paths` sits on the interface `home` gives it, and no other id does. */
  predicate Homed(paths: seq<PathInfo>, id: int, iface: string) {
    forall p :: p in paths ==> (p.id == id <==> p.iface == iface)
  }

  /** The last reading kept is the newest of the history. */
  predicate Remembers(last: map<string, Counters>, iface: string, history: seq<Counters>) {
    (iface in last <==> history != []) && (history != [] ==> last[iface] == history[|history| - 1])
  }

  lemma GrowthSnoc(h: seq<Counters>, c: Counters)
    ensures Growth(h + [c]) == Growth(h) + if h == [] then 0 else Rise(h[|h| - 1], c).bytes
  {
    assert (h + [c])[..|h|] == h;
  }

  /** Where nothing fell, a history grew by the difference of its last and first reading. */
  lemma {:induction false} SteadyGrowth(h: seq<Counters>)
    requires h != []
    requires forall i, j :: 0 <= i < j < |h| ==> h[i].bytes <= h[j].bytes && h[i].packets <= h[j].packets
    ensures Growth(h) == h[|h| - 1].bytes - h[0].bytes
  {
    if |h| > 1 {
      SteadyGrowth(h[..|h| - 1]);
    }
  }

  /** A fall of either counter starts afresh: the growth is that before it plus that from it on. */
  lemma {:induction false} GrowthSplits(a: seq<Counters>, b: seq<Counters>)
    requires a != [] && b != []
    requires b[0].bytes < a[|a| - 1].bytes || b[0].packets < a[|a| - 1].packets
    ensures Growth(a + b) == Growth(a) + Growth(b)
  {
    var front := b[..|b| - 1];
    assert (a + b)[..|a + b| - 1] == a + front;
    if front == [] {
      assert a + front == a;
    } else {
      GrowthSplits(a, front);
    }
  }

  lemma ScanPathGrowth(mid: Scan, p: PathInfo, readings: map<string, Counters>, now: int,
                       id: int, iface: string, h: seq<Counters>)
    requires p.id == id <==> p.iface == iface
    requires Remembers(mid.last, iface, h)
    ensures var r := ScanPath(mid, p, readings, now);
            var after := h + ReadingOf(p, readings, iface);
            && Remembers(r.last, iface, after)
            && Growth(after) - Growth(h) == SumBytes(OfPath(r.minted, id)) - SumBytes(OfPath(mid.minted, id))
  {
    hide Growth, OfPath, SumBytes;
    var more := Increment(mid, p, readings, now);
    if more == [] {
      assert mid.minted + more == mid.minted;
    } else {
      assert mid.minted + more == mid.minted + [more[0]];
      OfPathSnoc(mid.minted, more[0], id);
      SumBytesSnoc(OfPath(mid.minted, id), more[0]);
    }
    if ReadingOf(p, readings, iface) == [] {
      assert h + [] == h;
    } else {
      GrowthSnoc(h, readings[iface]);
    }
  }

  /** One pass bills a path exactly the growth of its interface over the readings taken. */
  lemma {:induction false} ScanGrowth(s: Scan, paths: seq<PathInfo>, readings: map<string, Counters>, now: int,
                                      id: int, iface: string, history: seq<Counters>)
    requires s.minted == [] && Homed(paths, id, iface) && Remembers(s.last, iface, history)
    ensures var r := ScanPaths(s, paths, readings, now);
            var after := ReadOn(history, paths, readings, iface);
            && Remembers(r.last, iface, after)
            && Growth(after) == Growth(history) + SumBytes(OfPath(r.minted, id))
  {
    hide ScanPath, Growth, Remembers, Increment, ReadingOf;
    if paths != [] {
      var front, p := paths[..|paths| - 1], paths[|paths| - 1];
      assert p in paths;
      forall q | q in front ensures q in paths { }
      ScanGrowth(s, front, readings, now, id, iface, history);
      ScanPathGrowth(ScanPaths(s, front, readings, now), p, readings, now, id, iface,
                     ReadOn(history, front, readings, iface));
    }
  }

  // ---- batches ---------------------------------------------------------

  function PathIds(ds: seq<Delta>): set<int> {
    set d | d in ds :: d.path
  }

  function Without(ds: seq<Delta>, p: int): seq<Delta> {
    if ds == [] then []
    else
      var front := Without(ds[..|ds| - 1], p);
      if ds[|ds| - 1].path == p then front else front + [ds[|ds| - 1]]
  }

  lemma {:induction false} WithoutCounts(ds: seq<Delta>, p: int)
    ensures |ds| == |OfPath(ds, p)| + |Without(ds, p)|
    ensures forall d :: d in Without(ds, p) ==> d in ds && d.path != p
  {
    if ds != [] {
      WithoutCounts(ds[..|ds| - 1], p);
    }
  }

  lemma {:induction false} WithoutKeepsOthers(ds: seq<Delta>, p: int, q: int)
    ensures OfPath(Without(ds, p), q) == if q == p then [] else OfPath(ds, q)
  {
    if ds != [] {
      var front := ds[..|ds| - 1];
      WithoutKeepsOthers(front, p, q);
      OfPathConcat(Without(front, p), [ds[|ds| - 1]], q);
      assert OfPath([ds[|ds| - 1]], q) == if ds[|ds| - 1].path == q then [ds[|ds| - 1]] else [];
    }
  }

  lemma LastPathCounts(ds: seq<Delta>)
    requires ds != []
    ensures |OfPath(ds, ds[|ds| - 1].path)| > |OfPath([], ds[|ds| - 1].path)|
  {}

  /** Two lists with as many deltas of every path are equally long. */
  lemma {:induction false} SameCounts(a: seq<Delta>, b: seq<Delta>)
    requires forall p :: |OfPath(a, p)| == |OfPath(b, p)|
    ensures |a| == |b|
    decreases |a| + |b|
  {
    if a == [] {
      assert b == [] by {
        if b != [] { LastPathCounts(b); }
      }
    } else {
      var p := a[|a| - 1].path;
      WithoutCounts(a, p);
      WithoutCounts(b, p);
      forall q ensures |OfPath(Without(a, p), q)| == |OfPath(Without(b, p), q)| {
        WithoutKeepsOthers(a, p, q);
        WithoutKeepsOthers(b, p, q);
      }
      SameCounts(Without(a, p), Without(b, p));
    }
  }

  lemma ProductGrows(k: nat, share: nat)
    ensures (k + 1) * share == k * share + share
  {}

  /** With at most `share` of each of the paths in `ids`, the total is at most their product,
      and short of it as soon as one path is short. */
  lemma {:induction false} CountBound(ds: seq<Delta>, ids: set<int>, share: nat, q: int)
    requires PathIds(ds) <= ids && q in ids
    requires forall p :: p in ids ==> |OfPath(ds, p)| <= share
    ensures |ds| <= |ids| * share
    ensures |OfPath(ds, q)| < share ==> |ds| < |ids| * share
    decreases |ids|
  {
    hide OfPath, Without;
    var rest, others := Without(ds, q), ids - {q};
    WithoutCounts(ds, q);
    ProductGrows(|others|, share);
    assert |ids| == |others| + 1;
    if rest != [] {
      forall p | p in others ensures |OfPath(rest, p)| <= share {
        WithoutKeepsOthers(ds, q, p);
      }
      forall id | id in PathIds(rest) ensures id in others {
        var d :| d in rest && d.path == id;
        assert d in ds;
        assert id in PathIds(ds);
      }
      assert rest[0].path in PathIds(rest);
      CountBound(rest, others, share, rest[0].path);
    }
  }

  /** How many deltas a request for n yields, and each path's guaranteed part of them. */
  function BatchSize(pending: seq<Delta>, n: int): nat {
    if n <= 0 then 0 else Min(n, |pending|)
  }

  ghost function Share(pending: seq<Delta>, n: int): nat
    requires pending != []
  {
    assert pending[0].path in PathIds(pending);
    var s := BatchSize(pending, n) / |PathIds(pending)|;
    if s < 1 then 1 else s
  }

  /** What a batch promises: exact size, per-path prefixes, and a fair share for every path. */
  ghost predicate FairBatch(pending: seq<Delta>, n: int, out: seq<Delta>) {
    && |out| == BatchSize(pending, n)
    && (forall p :: OfPath(out, p) <= OfPath(pending, p))
    && (out != [] && |PathIds(pending)| <= |out| ==>
          forall p :: |OfPath(out, p)| >= Min(Share(pending, n), |OfPath(pending, p)|))
  }

  /** With a single path buffered, fairness leaves one answer: the front of the buffer. */
  lemma SinglePathBatch(pending: seq<Delta>, n: int, out: seq<Delta>, p: int)
    requires FairBatch(pending, n, out)
    requires PathIds(pending) == {p}
    ensures out == pending[..BatchSize(pending, n)]
  {
    forall d | d in pending ensures d.path == p {
      assert d.path in PathIds(pending);
    }
    forall d | d in out ensures d.path == p {
      OfPathMembers(out, d.path);
      assert d in OfPath(out, d.path);
      assert d in OfPath(pending, d.path);
      OfPathMembers(pending, d.path);
    }
    OnlyPath(pending, p, p);
    OnlyPath(out, p, p);
  }

  lemma FrontIsFair(pending: seq<Delta>, n: int, p: int)
    requires pending != [] && p in PathIds(pending) && |PathIds(pending)| == 1
    ensures FairBatch(pending, n, pending[..BatchSize(pending, n)])
  {
    var out := pending[..BatchSize(pending, n)];
    assert PathIds(pending) - {p} == {} by {
      assert |PathIds(pending) - {p}| == 0;
    }
    forall d | d in pending ensures d.path == p {
      assert d.path in PathIds(pending);
      assert d.path !in PathIds(pending) - {p};
    }
    forall q ensures OfPath(out, q) <= OfPath(pending, q) {
      OfPathPrefix(out, pending, q);
    }
    OnlyPath(out, p, p);
    OnlyPath(pending, p, p);
    forall q | q != p ensures OfPath(pending, q) == [] {
      AbsentPath(pending, q);
    }
  }

  lemma OutOfPaths(pending: seq<Delta>, out: seq<Delta>)
    requires forall p :: OfPath(out, p) <= OfPath(pending, p)
    ensures PathIds(out) <= PathIds(pending)
  {
    forall id | id in PathIds(out) ensures id in PathIds(pending) {
      var d :| d in out && d.path == id;
      OfPathMembers(out, id);
      OfPathMembers(pending, id);
      assert d in OfPath(out, id);
      assert d in OfPath(pending, id);
    }
  }

  /** After i deltas of the share pass: up to `share` of each path, in order, all counted. */
  ghost predicate Shared(pending: seq<Delta>, i: nat, share: nat, out: seq<Delta>, taken: map<int, nat>)
    requires i <= |pending|
  {
    forall p :: SharedOf(pending, i, share, out, taken, p)
  }

  ghost predicate SharedOf(pending: seq<Delta>, i: nat, share: nat, out: seq<Delta>, taken: map<int, nat>, p: int)
    requires i <= |pending|
  {
    var seg := OfPath(pending[..i], p);
    OfPath(out, p) == seg[..Min(share, |seg|)] && Issued(taken, p) == |OfPath(out, p)|
  }

  lemma OfPathNext(pending: seq<Delta>, i: nat, p: int)
    requires i < |pending|
    ensures OfPath(pending[..i + 1], p) ==
            if pending[i].path == p then OfPath(pending[..i], p) + [pending[i]] else OfPath(pending[..i], p)
  {
    assert pending[..i + 1] == pending[..i] + [pending[i]];
    OfPathSnoc(pending[..i], pending[i], p);
  }

  lemma SharedStart(pending: seq<Delta>)
    ensures forall share: nat :: Shared(pending, 0, share, [], map[])
  {}

  lemma NoBatch(pending: seq<Delta>, n: int)
    requires BatchSize(pending, n) == 0
    ensures FairBatch(pending, n, [])
  {}

  lemma SharedStep(pending: seq<Delta>, i: nat, share: nat, out: seq<Delta>, taken: map<int, nat>)
    requires i < |pending| && Shared(pending, i, share, out, taken)
    ensures var d := pending[i];
            if Issued(taken, d.path) < share
            then Shared(pending, i + 1, share, out + [d], taken[d.path := Issued(taken, d.path) + 1])
            else Shared(pending, i + 1, share, out, taken)
  {
    hide OfPath;
    var d := pending[i];
    var more := Issued(taken, d.path) < share;
    var out' := if more then out + [d] else out;
    var taken' := if more then taken[d.path := Issued(taken, d.path) + 1] else taken;
    assert SharedOf(pending, i, share, out, taken, d.path);
    var k := i + 1;
    forall p ensures SharedOf(pending, k, share, out', taken', p) {
      assert SharedOf(pending, i, share, out, taken, p);
      OfPathNext(pending, i, p);
      OfPathSnoc(out, d, p);
    }
  }

  lemma FirstPassPrefixes(pending: seq<Delta>, stop: nat, share: nat, out: seq<Delta>, taken: map<int, nat>)
    requires stop <= |pending| && Shared(pending, stop, share, out, taken)
    ensures forall p :: OfPath(out, p) <= OfPath(pending, p) && Issued(taken, p) == |OfPath(out, p)|
  {
    forall p ensures OfPath(out, p) <= OfPath(pending, p) && Issued(taken, p) == |OfPath(out, p)| {
      assert SharedOf(pending, stop, share, out, taken, p);
      OfPathPrefix(pending[..stop], pending, p);
    }
  }

  /** Unless there are more paths than places, the share pass ends with every path's share taken. */
  lemma FirstPassShares(pending: seq<Delta>, stop: nat, share: nat, out: seq<Delta>, taken: map<int, nat>, want: nat)
    requires stop <= |pending| && Shared(pending, stop, share, out, taken)
    requires |out| <= want && (stop == |pending| || |out| == want)
    requires |PathIds(pending)| > 0 && share == Max(1, want / |PathIds(pending)|)
    ensures |PathIds(pending)| <= want ==> forall p :: |OfPath(out, p)| >= Min(share, |OfPath(pending, p)|)
  {
    if |PathIds(pending)| <= want {
      DivideBound(want, |PathIds(pending)|);
      forall p ensures |OfPath(out, p)| >= Min(share, |OfPath(pending, p)|) {
        assert SharedOf(pending, stop, share, out, taken, p);
        if stop == |pending| {
          assert pending[..stop] == pending;
        } else if p in PathIds(pending) {
          FullBatchShare(pending, stop, share, out, taken, p);
        } else {
          AbsentPath(pending, p);
        }
      }
    }
  }

  lemma {:induction false} AbsentPath(ds: seq<Delta>, p: int)
    requires forall d :: d in ds ==> d.path != p
    ensures OfPath(ds, p) == []
  {
    if ds != [] {
      AbsentPath(ds[..|ds| - 1], p);
    }
  }

  /** A share pass that filled the batch gave every path its whole share. */
  lemma FullBatchShare(pending: seq<Delta>, stop: nat, share: nat, out: seq<Delta>, taken: map<int, nat>, p: int)
    requires stop <= |pending| && Shared(pending, stop, share, out, taken)
    requires p in PathIds(pending) && |PathIds(pending)| * share <= |out|
    ensures |OfPath(out, p)| >= share
  {
    FirstPassPrefixes(pending, stop, share, out, taken);
    OutOfPaths(pending, out);
    forall q ensures |OfPath(out, q)| <= share {
      assert SharedOf(pending, stop, share, out, taken, q);
    }
    CountBound(out, PathIds(pending), share, p);
  }

  /** The two passes together make a fair batch. */
  lemma TwoPasses(pending: seq<Delta>, n: int, share: nat, first: seq<Delta>, out: seq<Delta>)
    requires pending != [] && |PathIds(pending)| > 0 && n > 0 && share == Max(1, BatchSize(pending, n) / |PathIds(pending)|)
    requires |out| == BatchSize(pending, n)
    requires forall p :: OfPath(first, p) <= OfPath(out, p) <= OfPath(pending, p)
    requires |PathIds(pending)| <= |out| ==> forall p :: |OfPath(first, p)| >= Min(share, |OfPath(pending, p)|)
    ensures FairBatch(pending, n, out)
  {
    forall p ensures |OfPath(first, p)| <= |OfPath(out, p)| {
      assert OfPath(first, p) <= OfPath(out, p);
    }
  }

  lemma DivideBound(want: nat, k: nat)
    requires 0 < k <= want
    ensures want / k >= 1 && k * (want / k) <= want
  {}

  /** After i deltas of the fill pass: each path's prefix has grown to what was passed, if more. */
  ghost predicate Filled(pending: seq<Delta>, i: nat, first: seq<Delta>, out: seq<Delta>, seen: map<int, nat>)
    requires i <= |pending|
  {
    forall p :: FilledOf(pending, i, first, out, seen, p)
  }

  ghost predicate FilledOf(pending: seq<Delta>, i: nat, first: seq<Delta>, out: seq<Delta>, seen: map<int, nat>, p: int)
    requires i <= |pending|
  {
    && Issued(seen, p) == |OfPath(pending[..i], p)|
    && OfPath(out, p) == if |OfPath(first, p)| >= Issued(seen, p) then OfPath(first, p) else OfPath(pending[..i], p)
  }

  lemma FilledStart(pending: seq<Delta>, first: seq<Delta>)
    ensures Filled(pending, 0, first, first, map[])
  {}

  lemma FilledStep(pending: seq<Delta>, i: nat, first: seq<Delta>, out: seq<Delta>, seen: map<int, nat>)
    requires i < |pending| && Filled(pending, i, first, out, seen)
    requires forall p :: OfPath(first, p) <= OfPath(pending, p)
    ensures var d := pending[i];
            var seen' := seen[d.path := Issued(seen, d.path) + 1];
            if Issued(seen', d.path) > |OfPath(first, d.path)|
            then Filled(pending, i + 1, first, out + [d], seen')
            else Filled(pending, i + 1, first, out, seen')
  {
    hide OfPath;
    var d := pending[i];
    var seen' := seen[d.path := Issued(seen, d.path) + 1];
    var out' := if Issued(seen', d.path) > |OfPath(first, d.path)| then out + [d] else out;
    var k := i + 1;
    forall p ensures FilledOf(pending, k, first, out', seen', p) {
      assert FilledOf(pending, i, first, out, seen, p);
      OfPathNext(pending, i, p);
      OfPathSnoc(out, d, p);
      if p == d.path && Issued(seen, p) == |OfPath(first, p)| {
        OfPathPrefix(pending[..i], pending, p);
        SameLengthPrefixes(OfPath(first, p), OfPath(pending[..i], p), OfPath(pending, p));
      }
    }
  }

  lemma SameLengthPrefixes(a: seq<Delta>, b: seq<Delta>, whole: seq<Delta>)
    requires a <= whole && b <= whole && |a| == |b|
    ensures a == b
  {}

  /** The fill pass only extends prefixes, and if it runs out of buffer it has taken everything. */
  lemma FilledShape(pending: seq<Delta>, i: nat, first: seq<Delta>, out: seq<Delta>, seen: map<int, nat>)
    requires i <= |pending| && Filled(pending, i, first, out, seen)
    requires forall p :: OfPath(first, p) <= OfPath(pending, p)
    ensures forall p :: OfPath(first, p) <= OfPath(out, p) <= OfPath(pending, p)
    ensures i == |pending| ==> |out| == |pending|
  {
    forall p ensures OfPath(first, p) <= OfPath(out, p) <= OfPath(pending, p) {
      assert FilledOf(pending, i, first, out, seen, p);
      OfPathPrefix(pending[..i], pending, p);
    }
    if i == |pending| {
      assert pending[..i] == pending;
      forall p ensures |OfPath(out, p)| == |OfPath(pending, p)| {
        assert FilledOf(pending, i, first, out, seen, p);
      }
      SameCounts(out, pending);
    }
  }

  // ---- acknowledgement -------------------------------------------------

  predicate Covered(acked: map<int, nat>, d: Delta) {
    d.path in acked && d.num <= acked[d.path]
  }

  /** What an ack leaves in the buffer. */
  function Unacked(ds: seq<Delta>, acked: map<int, nat>): seq<Delta> {
    if ds == [] then []
    else
      var front := Unacked(ds[..|ds| - 1], acked);
      if Covered(acked, ds[|ds| - 1]) then front else front + [ds[|ds| - 1]]
  }

  lemma {:induction false} UnackedMembers(ds: seq<Delta>, acked: map<int, nat>)
    ensures forall d :: d in Unacked(ds, acked) <==> d in ds && (d.path in acked ==> d.num > acked[d.path])
  {
    if ds != [] {
      UnackedMembers(ds[..|ds| - 1], acked);
      assert ds == ds[..|ds| - 1] + [ds[|ds| - 1]];
    }
  }

  /** Dropping acknowledged deltas keeps each path's order. */
  lemma {:induction false} UnackedAscending(ds: seq<Delta>, acked: map<int, nat>, p: int)
    requires Ascending(OfPath(ds, p))
    ensures Ascending(OfPath(Unacked(ds, acked), p))
  {
    if ds != [] {
      var front, d := ds[..|ds| - 1], ds[|ds| - 1];
      OfPathPrefix(front, ds, p);
      AscendingPrefix(OfPath(front, p), OfPath(ds, p));
      UnackedAscending(front, acked, p);
      var kept := Unacked(front, acked);
      UnackedMembers(front, acked);
      OfPathMembers(front, p);
      OfPathMembers(kept, p);
      OfPathConcat(kept, [d], p);
      if d.path == p && !Covered(acked, d) {
        assert OfPath([d], p) == [d];
        var o := OfPath(ds, p);
        forall e | e in OfPath(kept, p) ensures e.num < d.num {
          assert e in OfPath(front, p);
          var j :| 0 <= j < |OfPath(front, p)| && OfPath(front, p)[j] == e;
          assert o[j].num < o[|o| - 1].num;
        }
        AscendingSnoc(OfPath(kept, p), d);
      }
    }
  }

  // ---- the meter -------------------------------------------------------

  class Meter {
    var last: map<string, Counters>
    var nextSeq: map<int, nat>
    var pending: seq<Delta>

    constructor (saved: MeterState)
      ensures State() == saved
    {
      last, nextSeq, pending := saved.last, saved.nextSeq, saved.pending;
    }

    function State(): MeterState
      reads this
    {
      MeterState(last, nextSeq, pending)
    }

    /** One path's turn: at most one delta, and the reading is the next baseline either way. */
    method SamplePath(p: PathInfo, readings: map<string, Counters>, now: int) returns (more: seq<Delta>)
      modifies this`last, this`nextSeq
      ensures Scan(last, nextSeq, more) == ScanPath(Scan(old(last), old(nextSeq), []), p, readings, now)
      ensures if p.metered && p.iface in readings && p.iface in old(last)
                 && readings[p.iface].bytes >= old(last)[p.iface].bytes
                 && readings[p.iface].packets >= old(last)[p.iface].packets
                 && readings[p.iface] != old(last)[p.iface]
              then more == [Delta(p.id, readings[p.iface].bytes - old(last)[p.iface].bytes,
                                  readings[p.iface].packets - old(last)[p.iface].packets, now,
                                  1 + if p.id in old(nextSeq) then old(nextSeq)[p.id] else 0)]
              else more == []
      ensures last == if p.metered && p.iface in readings then old(last)[p.iface := readings[p.iface]] else old(last)
      ensures nextSeq == if more != [] then old(nextSeq)[p.id := more[0].num] else old(nextSeq)
    {
      if !p.metered || p.iface !in readings {
        return [];
      }
      var cur := readings[p.iface];
      var seen := p.iface in last;
      var prev := if seen then last[p.iface] else cur;
      last := last[p.iface := cur];
      if !seen {
        return [];
      }
      var dBytes, dPackets := cur.bytes - prev.bytes, cur.packets - prev.packets;
      if dBytes < 0 || dPackets < 0 {
        return [];
      }
      if dBytes == 0 && dPackets == 0 {
        return [];
      }
      var num := Issued(nextSeq, p.id) + 1;
      nextSeq := nextSeq[p.id := num];
      more := [Delta(p.id, dBytes, dPackets, now, num)];
    }

    /** One pass over the configured paths; reports what a full buffer had to drop. */
    method Sample(paths: seq<PathInfo>, readings: map<string, Counters>, now: int) returns (dropped: seq<Delta>)
      modifies this
      ensures State() == Sampled(old(State()), paths, readings, now)
      ensures dropped + pending ==
              old(pending) + ScanPaths(Scan(old(last), old(nextSeq), []), paths, readings, now).minted
    {
      hide ScanPaths, ScanPath;
      var minted := [];
      ghost var start := Scan(last, nextSeq, []);
      NoScan(start, readings, now);
      var i := 0;
      while i < |paths|
        invariant 0 <= i <= |paths|
        invariant pending == old(pending)
        invariant Scan(last, nextSeq, minted) == ScanPaths(start, paths[..i], readings, now)
      {
        ScanNext(start, paths, i, readings, now);
        ScanShift(Scan(last, nextSeq, minted), paths[i], readings, now);
        var more := SamplePath(paths[i], readings, now);
        minted := minted + more;
        i := i + 1;
      }
      assert paths[..|paths|] == paths;
      dropped := [];
      if |minted| > 0 {
        pending := pending + minted;
        if |pending| > MAX_BUFFERED {
          var over := |pending| - MAX_BUFFERED;
          dropped := pending[..over];
          pending := pending[over..];
        }
      }
    }

    /** At most n buffered deltas, no path allowed to crowd the others out. */
    method PendingBatch(n: int) returns (out: seq<Delta>)
      ensures FairBatch(pending, n, out)
      ensures |out| == if n <= 0 then 0 else if n < |pending| then n else |pending|
    {
      hide OfPath, Shared, Filled, FairBatch;
      var want := if n > |pending| then |pending| else n;
      out := [];
      SharedStart(pending);
      if want <= 0 {
        NoBatch(pending, n);
        return;
      }
      var ids := PathIds(pending);
      assert pending[0].path in ids;
      if |ids| == 1 {
        out := pending[..want];
        FrontIsFair(pending, n, pending[0].path);
        return;
      }
      var share := want / |ids|;
      if share < 1 {
        share := 1;
      }
      var taken: map<int, nat> := map[];
      var i := 0;
      while i < |pending| && |out| < want
        invariant 0 <= i <= |pending| && |out| <= want
        invariant Shared(pending, i, share, out, taken)
      {
        var d := pending[i];
        SharedStep(pending, i, share, out, taken);
        if Issued(taken, d.path) < share {
          taken := taken[d.path := Issued(taken, d.path) + 1];
          out := out + [d];
        }
        i := i + 1;
      }
      ghost var first := out;
      FirstPassPrefixes(pending, i, share, out, taken);
      FirstPassShares(pending, i, share, out, taken, want);
      var seen: map<int, nat> := map[];
      i := 0;
      FilledStart(pending, first);
      while i < |pending| && |out| < want
        invariant 0 <= i <= |pending| && |out| <= want
        invariant Filled(pending, i, first, out, seen)
      {
        var d := pending[i];
        FilledStep(pending, i, first, out, seen);
        seen := seen[d.path := Issued(seen, d.path) + 1];
        if Issued(seen, d.path) > Issued(taken, d.path) {
          out := out + [d];
        }
        i := i + 1;
      }
      FilledShape(pending, i, first, out, seen);
      TwoPasses(pending, n, share, first, out);
    }

    /** Drops every buffered delta the ack covers. */
    method AckApplied(acked: map<int, nat>)
      modifies this
      ensures State() == old(State()).(pending := Unacked(old(pending), acked))
    {
      var kept := [];
      var i := 0;
      while i < |pending|
        invariant 0 <= i <= |pending|
        invariant State() == old(State())
        invariant kept == Unacked(pending[..i], acked)
      {
        var d := pending[i];
        assert pending[..i + 1][..i] == pending[..i];
        if !Covered(acked, d) {
          kept := kept + [d];
        }
        i := i + 1;
      }
      assert pending[..i] == pending;
      pending := kept;
    }
  }
}
