/**
 The frontend's half of metering: one usage frame is deduplicated against each
 path's durable watermark, booked path by path, and acknowledged.
 */
module UsageIntake {
  import opened UsageDeltas
  import opened Ledger
  import opened Words
  import Quota

  datatype Option<+T> = None | Some(value: T)

  datatype PathConfig = PathConfig(metered: bool, plan: Quota.Plan)

  /** Everything one application depends on besides the frame: the configuration, the clock,
      which watermark reads fail, and how each path's transaction ends. */
  datatype Env = Env(paths: map<int, PathConfig>, now: int, unreadable: set<int>, outcome: int -> Outcome) {
    predicate Bills(p: int) { p in paths && paths[p].metered }
  }

  // ---- bounds on one delta --------------------------------------------

  function ClampCounts(bytes: int, packets: int): (r: (int64, int64))
    ensures 0 <= r.0 <= MAX_DELTA_BYTES && 0 <= r.1 <= MAX_DELTA_PACKETS
  {
    (if bytes < 0 then 0 else if bytes > MAX_DELTA_BYTES then MAX_DELTA_BYTES else bytes,
     if packets < 0 then 0 else if packets > MAX_DELTA_PACKETS then MAX_DELTA_PACKETS else packets)
  }

  function ClampStamp(at: int, now: int): int {
    if at > now + MAX_DELTA_SKEW then now
    else if at < now - MAX_DELTA_AGE then now
    else at
  }

  function CheckDelta(d: Delta, now: int): Delta {
    var (bytes, packets) := ClampCounts(d.bytes, d.packets);
    d.(bytes := bytes, packets := packets, at := ClampStamp(d.at, now))
  }

  /** Nothing an honest meter sends is altered. */
  predicate InBounds(d: Delta, now: int) {
    && 0 <= d.bytes <= MAX_DELTA_BYTES && 0 <= d.packets <= MAX_DELTA_PACKETS
    && now - MAX_DELTA_AGE <= d.at <= now + MAX_DELTA_SKEW
  }

  /** Clamping lands in bounds, keeps what was in bounds, and settles at once. */
  lemma CheckDeltaSettles(d: Delta, now: int)
    ensures InBounds(CheckDelta(d, now), now)
    ensures InBounds(d, now) <==> CheckDelta(d, now) == d
    ensures CheckDelta(CheckDelta(d, now), now) == CheckDelta(d, now)
    ensures CheckDelta(d, now).bytes == Max(0, Min(d.bytes, MAX_DELTA_BYTES))
    ensures CheckDelta(d, now).packets == Max(0, Min(d.packets, MAX_DELTA_PACKETS))
    ensures CheckDelta(d, now).at == if now - 7 * 24 * 3600 <= d.at <= now + 3600 then d.at else now
    ensures CheckDelta(d, now).path == d.path && CheckDelta(d, now).num == d.num
  {}

  function EntryOf(d: Delta, plan: Quota.Plan, now: int): Entry {
    var (bytes, packets) := ClampCounts(d.bytes, d.packets);
    var at := ClampStamp(d.at, now);
    Entry(Quota.PeriodStart(plan.resetDay, plan.zoneOffset, at), at, Quota.Metered(bytes, packets, plan), packets)
  }

  /** An entry carries its clamped delta, converted, in the period of its stamp. */
  lemma EntryExact(d: Delta, plan: Quota.Plan, now: int)
    ensures var e, c := EntryOf(d, plan, now), CheckDelta(d, now);
            && e.at == c.at && e.packets == c.packets && e.bytes == Quota.Metered(c.bytes, c.packets, plan)
            && e.period == Quota.PeriodStart(plan.resetDay, plan.zoneOffset, c.at)
            && e.period <= c.at < Quota.PeriodEnd(plan.resetDay, plan.zoneOffset, c.at)
  {
    hide Quota.PeriodStart, Quota.PeriodEnd, Quota.Metered;
    Quota.PeriodContains(plan.resetDay, plan.zoneOffset, CheckDelta(d, now).at);
  }

  /** The second clamping on the way to the ledger changes nothing the first one left. */
  lemma CheckedEntry(d: Delta, plan: Quota.Plan, now: int)
    ensures EntryOf(CheckDelta(d, now), plan, now) == EntryOf(d, plan, now)
  {
    hide Quota.PeriodStart, Quota.Metered;
  }

  // ---- what a frame does to one path ----------------------------------

  function Frame(deltas: seq<Delta>): seq<Delta> {
    if |deltas| > MAX_DELTAS_PER_FRAME then deltas[..MAX_DELTAS_PER_FRAME] else deltas
  }

  /** An id the configuration holds, or at least one it could. */
  predicate Admissible(env: Env, p: int) {
    p in env.paths || 0 < p < MAX_DELTA_PATH_ID
  }

  predicate WithinReach(base: nat, d: Delta) {
    d.num <= MAX_DELTA_SEQUENCE && d.num <= base + MAX_SEQUENCE_JUMP
  }

  function Reached(base: nat, taken: seq<Delta>): nat {
    if taken == [] then base else taken[|taken| - 1].num
  }

  /** The deltas of one path a frame gets billed, starting from watermark `base`. */
  function Accepted(base: nat, ds: seq<Delta>): (r: seq<Delta>)
    ensures |r| <= |ds|
  {
    if ds == [] then []
    else
      var taken := Accepted(base, ds[..|ds| - 1]);
      var d := ds[|ds| - 1];
      if WithinReach(base, d) && d.num > Reached(base, taken) then taken + [d] else taken
  }

  /** A delta is billed iff it is new, within reach, and beats every reachable one before it. */
  predicate Record(base: nat, ds: seq<Delta>, i: nat)
    requires i < |ds|
  {
    && base < ds[i].num && WithinReach(base, ds[i])
    && forall j :: 0 <= j < i && WithinReach(base, ds[j]) ==> ds[j].num < ds[i].num
  }

  ghost predicate Shape(base: nat, ds: seq<Delta>, r: seq<Delta>) {
    && Ascending(r)
    && (forall d :: d in r ==> base < d.num <= Reached(base, r) && WithinReach(base, d) && d in ds)
    && base <= Reached(base, r) <= base + MAX_SEQUENCE_JUMP
    && (forall d :: d in ds && WithinReach(base, d) ==> d.num <= Reached(base, r))
  }

  lemma ShapeSnoc(base: nat, ds: seq<Delta>, d: Delta, r: seq<Delta>)
    requires Shape(base, ds, r)
    ensures Shape(base, ds + [d], if WithinReach(base, d) && d.num > Reached(base, r) then r + [d] else r)
  {
    if WithinReach(base, d) && d.num > Reached(base, r) {
      AscendingSnoc(r, d);
    }
  }

  lemma {:induction false} AcceptedShape(base: nat, ds: seq<Delta>)
    ensures Shape(base, ds, Accepted(base, ds))
  {
    hide Shape;
    if ds == [] {
      EmptyShape(base);
    } else {
      var front, d := ds[..|ds| - 1], ds[|ds| - 1];
      AcceptedShape(base, front);
      ShapeSnoc(base, front, d, Accepted(base, front));
      assert front + [d] == ds;
    }
  }

  lemma EmptyShape(base: nat)
    ensures Shape(base, [], [])
  {}

  lemma RecordPrefix(base: nat, front: seq<Delta>, e: Delta, i: nat)
    requires i < |front|
    ensures Record(base, front + [e], i) <==> Record(base, front, i)
  {
    var ds := front + [e];
    forall j | 0 <= j <= i ensures ds[j] == front[j] {}
  }

  lemma RecordLast(base: nat, front: seq<Delta>, e: Delta)
    ensures Record(base, front + [e], |front|) <==>
            WithinReach(base, e) && e.num > Reached(base, Accepted(base, front))
  {
    var ds, taken := front + [e], Accepted(base, front);
    AcceptedShape(base, front);
    forall j | 0 <= j < |front| ensures ds[j] == front[j] && front[j] in front {}
    if Record(base, ds, |front|) && taken != [] {
      var last := taken[|taken| - 1];
      assert last in taken;
      var j :| 0 <= j < |front| && front[j] == last;
      assert ds[j] == last;
    }
  }

  ghost predicate IsRecord(base: nat, ds: seq<Delta>, d: Delta) {
    exists i :: 0 <= i < |ds| && ds[i] == d && Record(base, ds, i)
  }

  lemma IsRecordSnoc(base: nat, front: seq<Delta>, e: Delta, d: Delta)
    ensures IsRecord(base, front + [e], d) <==>
            IsRecord(base, front, d) || (d == e && Record(base, front + [e], |front|))
  {
    var ds := front + [e];
    if IsRecord(base, front, d) {
      var i :| 0 <= i < |front| && front[i] == d && Record(base, front, i);
      RecordPrefix(base, front, e, i);
      assert ds[i] == d;
    }
    if IsRecord(base, ds, d) {
      var i :| 0 <= i < |ds| && ds[i] == d && Record(base, ds, i);
      if i < |front| {
        RecordPrefix(base, front, e, i);
        assert front[i] == d;
      }
    }
    assert ds[|front|] == e;
  }

  /** Acceptance, said without the scan: exactly the records of the path's part of the frame. */
  lemma {:induction false} AcceptedAreRecords(base: nat, ds: seq<Delta>, d: Delta)
    ensures d in Accepted(base, ds) <==> IsRecord(base, ds, d)
    ensures IsRecord(base, ds, d) <==>
            exists i :: 0 <= i < |ds| && ds[i] == d
              && base < d.num <= MAX_DELTA_SEQUENCE && d.num <= base + MAX_SEQUENCE_JUMP
              && forall j :: 0 <= j < i && ds[j].num <= MAX_DELTA_SEQUENCE && ds[j].num <= base + MAX_SEQUENCE_JUMP ==>
                   ds[j].num < d.num
  {
    if ds != [] {
      var front, e := ds[..|ds| - 1], ds[|ds| - 1];
      assert ds == front + [e];
      AcceptedAreRecords(base, front, d);
      RecordLast(base, front, e);
      IsRecordSnoc(base, front, e, d);
    }
  }

  /** Whether a frame opens a path's record at all. */
  predicate Touches(env: Env, ds: seq<Delta>, p: int) {
    && Admissible(env, p) && p !in env.unreadable
    && exists d :: d in ds && d.path == p && d.num <= MAX_DELTA_SEQUENCE
  }

  /** A path's durable state: its watermark and what was booked for it. */
  datatype Account = Account(mark: nat, billed: seq<Delta>)

  function Settled(env: Env, ds: seq<Delta>, p: int, a: Account): Account {
    var taken := Accepted(a.mark, OfPath(ds, p));
    if Touches(env, ds, p) && taken != [] && env.outcome(p).Durable()
    then Account(Reached(a.mark, taken), if env.Bills(p) then a.billed + taken else a.billed)
    else a
  }

  /** The acknowledgement for one path, if the frame earns one. */
  function Acked(env: Env, ds: seq<Delta>, p: int, mark: nat): Option<nat> {
    var taken := Accepted(mark, OfPath(ds, p));
    if !Touches(env, ds, p) then None
    else if taken != [] && env.outcome(p).Committed? then Some(Reached(mark, taken))
    else Some(mark)
  }

  /** One application never rewinds a watermark, moves it a bounded distance, bills only above
      it, and acknowledges the durable value - or less, and only after an uncertain commit. */
  lemma SettledAccount(env: Env, ds: seq<Delta>, p: int, a: Account)
    ensures var b := Settled(env, ds, p, a);
            && a.mark <= b.mark <= a.mark + MAX_SEQUENCE_JUMP
            && a.billed <= b.billed
            && Ascending(b.billed[|a.billed|..])
            && (forall i :: |a.billed| <= i < |b.billed| ==> a.mark < b.billed[i].num <= b.mark)
            && match Acked(env, ds, p, a.mark)
               case None => b == a
               case Some(n) => n <= b.mark && (n < b.mark ==> env.outcome(p).Uncertain?)
  {
    AcceptedShape(a.mark, OfPath(ds, p));
    var b := Settled(env, ds, p, a);
    var taken := Accepted(a.mark, OfPath(ds, p));
    if b.billed != a.billed {
      assert b.billed[|a.billed|..] == taken;
      forall i | |a.billed| <= i < |b.billed| ensures a.mark < b.billed[i].num <= b.mark {
        assert b.billed[i] == taken[i - |a.billed|];
        assert b.billed[i] in taken;
      }
    }
  }

  // ---- what a frame does, from the configuration -----------------------

  /** The highest number of `mine` that may be taken above `base`, or `base` itself if none may. */
  ghost predicate IsHighest(mine: seq<Delta>, base: nat, n: nat) {
    && base <= n && (n == base || exists d :: d in mine && d.num == n)
    && n <= Max(base, Min(MAX_DELTA_SEQUENCE, base + MAX_SEQUENCE_JUMP))
    && forall d :: d in mine && d.num <= MAX_DELTA_SEQUENCE && d.num <= base + MAX_SEQUENCE_JUMP ==> d.num <= n
  }

  lemma MarkIsHighest(mine: seq<Delta>, base: nat)
    ensures IsHighest(mine, base, Reached(base, Accepted(base, mine)))
    ensures Accepted(base, mine) == [] ==> Reached(base, Accepted(base, mine)) == base
  {
    AcceptedShape(base, mine);
    var taken := Accepted(base, mine);
    if taken != [] {
      assert taken[|taken| - 1] in taken;
    }
  }

  /** A readable path whose commit succeeds: metered, everything new of it in the frame is billed, in
      order of number; unmetered or unknown, nothing is; and either way the watermark and the
      acknowledgement come to stand at the highest number taken. */
  lemma CommittedFrame(env: Env, ds: seq<Delta>, p: int, a: Account)
    requires (p in env.paths || 0 < p < MAX_DELTA_PATH_ID) && p !in env.unreadable && env.outcome(p) == Committed
    ensures var b, mine := Settled(env, ds, p, a), OfPath(ds, p);
            && a.billed <= b.billed && IsHighest(mine, a.mark, b.mark)
            && (p in env.paths && env.paths[p].metered ==>
                  forall d :: d in b.billed[|a.billed|..] <==> IsRecord(a.mark, mine, d))
            && (p !in env.paths || !env.paths[p].metered ==> b.billed == a.billed)
            && Acked(env, ds, p, a.mark) ==
               if exists d :: d in mine && d.num <= MAX_DELTA_SEQUENCE then Some(b.mark) else None
  {
    hide IsHighest, Reached;
    var mine := OfPath(ds, p);
    var taken := Accepted(a.mark, mine);
    MarkIsHighest(mine, a.mark);
    OfPathMembers(ds, p);
    if !Touches(env, ds, p) {
      Untouched(env, ds, p, a.mark);
    }
    forall d ensures d in taken <==> IsRecord(a.mark, mine, d) {
      AcceptedAreRecords(a.mark, mine, d);
    }
    assert (a.billed + taken)[|a.billed|..] == taken && (a.billed + [])[|a.billed|..] == [];
  }

  /** Any other path: an unreadable one or one that could not exist is left alone and gets no
      acknowledgement, and a rolled back commit leaves the account where it was and says so. */
  lemma UncommittedFrame(env: Env, ds: seq<Delta>, p: int, a: Account)
    requires p in env.unreadable || (p !in env.paths && !(0 < p < MAX_DELTA_PATH_ID)) || env.outcome(p) == RolledBack
    ensures Settled(env, ds, p, a) == a
    ensures Acked(env, ds, p, a.mark) in {None, Some(a.mark)}
    ensures p in env.unreadable || (p !in env.paths && !(0 < p < MAX_DELTA_PATH_ID)) ==> Acked(env, ds, p, a.mark) == None
  {}

  /** An uncertain commit settles what a successful one does, and acknowledges only the old watermark. */
  lemma UncertainFrame(env: Env, ds: seq<Delta>, p: int, a: Account)
    requires env.outcome(p) == Uncertain
    ensures var sure := env.(outcome := q => Committed);
            && Settled(env, ds, p, a) == Settled(sure, ds, p, a)
            && Acked(env, ds, p, a.mark) == if Acked(sure, ds, p, a.mark) == None then None else Some(a.mark)
  {
    hide Accepted, OfPath, Reached;
    var sure := env.(outcome := q => Committed);
    assert Touches(sure, ds, p) <==> Touches(env, ds, p);
  }

  // ---- the server ------------------------------------------------------

  datatype PathBatch = PathBatch(base: nat, seen: nat, samples: seq<Delta>)

  function Checked(ds: seq<Delta>, now: int): seq<Delta> {
    seq(|ds|, i requires 0 <= i < |ds| => CheckDelta(ds[i], now))
  }

  /** What the scan of a frame holds about one path: its batch, whether it is held back, its ack. */
  datatype View = View(batch: Option<PathBatch>, held: bool, ack: Option<nat>)

  /** The view of path p after scanning `ds`, with its watermark at `mark`. */
  predicate Scanned(env: Env, ds: seq<Delta>, p: int, mark: nat, v: View) {
    var taken := Accepted(mark, OfPath(ds, p));
    if Touches(env, ds, p)
    then v == View(Some(PathBatch(mark, Reached(mark, taken), Checked(taken, env.now))), false, Some(mark))
    else v.batch == None && v.ack == None && (v.held ==> p in env.unreadable)
  }

  /** What one more delta of the path itself does to its view. */
  function Looked(env: Env, mark: nat, v: View, d: Delta): View {
    if !Admissible(env, d.path) || d.num > MAX_DELTA_SEQUENCE || v.held then v
    else if v.batch == None && d.path in env.unreadable then v.(held := true)
    else
      var b := if v.batch == None then PathBatch(mark, mark, []) else v.batch.value;
      var ack := if v.batch == None then Some(mark) else v.ack;
      if d.num <= b.seen || d.num - b.base > MAX_SEQUENCE_JUMP then View(Some(b), false, ack)
      else View(Some(PathBatch(b.base, d.num, b.samples + [CheckDelta(d, env.now)])), false, ack)
  }

  lemma {:induction false} OutOfRangeNone(mark: nat, ds: seq<Delta>)
    requires forall d :: d in ds ==> d.num > MAX_DELTA_SEQUENCE
    ensures Accepted(mark, ds) == []
  {
    if ds != [] {
      OutOfRangeNone(mark, ds[..|ds| - 1]);
    }
  }

  lemma TouchesSnoc(env: Env, ds: seq<Delta>, d: Delta, p: int)
    ensures Touches(env, ds + [d], p) <==>
            Touches(env, ds, p) || (d.path == p && d.num <= MAX_DELTA_SEQUENCE && Admissible(env, p) && p !in env.unreadable)
    ensures Touches(env, ds, p) ==> Admissible(env, p) && p !in env.unreadable
  {
    if Touches(env, ds, p) {
      var e :| e in ds && e.path == p && e.num <= MAX_DELTA_SEQUENCE;
      assert e in ds + [d];
    }
    assert d in ds + [d];
  }

  /** What accepting one more delta of the path means for its batch. */
  lemma AcceptedSnoc(mark: nat, mine: seq<Delta>, d: Delta, now: int)
    ensures var taken := Accepted(mark, mine);
            var more := Accepted(mark, mine + [d]);
            if WithinReach(mark, d) && d.num > Reached(mark, taken)
            then more == taken + [d] && Reached(mark, more) == d.num
                 && Checked(more, now) == Checked(taken, now) + [CheckDelta(d, now)]
            else more == taken
  {
    assert (mine + [d])[..|mine|] == mine;
  }

  /** The scan keeps every path's view in step with what the frame so far earns it. */
  lemma ScanStep(env: Env, ds: seq<Delta>, d: Delta, p: int, mark: nat, v: View)
    requires Scanned(env, ds, p, mark, v)
    ensures Scanned(env, ds + [d], p, mark, if d.path == p then Looked(env, mark, v, d) else v)
  {
    hide Touches, Accepted, OfPath, Checked, CheckDelta;
    TouchesSnoc(env, ds, d, p);
    OfPathSnoc(ds, d, p);
    if d.path == p {
      var mine := OfPath(ds, p);
      AcceptedSnoc(mark, mine, d, env.now);
      if !Touches(env, ds, p) && Admissible(env, p) && p !in env.unreadable {
        Untouched(env, ds, p, mark);
      }
      AcceptedShape(mark, mine);
    }
  }

  lemma Untouched(env: Env, ds: seq<Delta>, p: int, mark: nat)
    requires !Touches(env, ds, p) && Admissible(env, p) && p !in env.unreadable
    ensures Accepted(mark, OfPath(ds, p)) == [] && Checked([], env.now) == []
  {
    OfPathMembers(ds, p);
    OutOfRangeNone(mark, OfPath(ds, p));
  }

  lemma ScanStart(env: Env, watermark: map<int, nat>)
    ensures forall p :: Scanned(env, [], p, Mark(watermark, p), View(None, false, None))
  {}

  ghost function ViewOf(batches: map<int, PathBatch>, unread: set<int>, ack: map<int, nat>, p: int): View {
    View(if p in batches then Some(batches[p]) else None, p in unread, if p in ack then Some(ack[p]) else None)
  }

  ghost predicate Lists(order: seq<int>, ids: set<int>) {
    && (forall p :: p in order <==> p in ids)
    && forall i, j :: 0 <= i < j < |order| ==> order[i] != order[j]
  }

  // ---- committing ------------------------------------------------------

  function Entries(samples: seq<Delta>, plan: Quota.Plan, now: int): seq<Entry> {
    seq(|samples|, i requires 0 <= i < |samples| => EntryOf(samples[i], plan, now))
  }

  /** A booking as an application under `env` makes it: of a billed path, at that path's plan. */
  predicate BookedUnder(env: Env, b: Booking) {
    && b.delta.path in env.paths && env.paths[b.delta.path].metered
    && b.entry == EntryOf(b.delta, env.paths[b.delta.path].plan, env.now)
  }

  /** The record has only grown, by bookings made under `env`. */
  ghost predicate Extends(before: seq<Booking>, after: seq<Booking>, env: Env) {
    before <= after && forall i :: |before| <= i < |after| ==> BookedUnder(env, after[i])
  }

  lemma ExtendsFurther(a: seq<Booking>, b: seq<Booking>, c: seq<Booking>, env: Env)
    requires Extends(a, b, env) && Extends(b, c, env)
    ensures Extends(a, c, env)
  {
    hide BookedUnder;
    forall i | |a| <= i < |c|
      ensures BookedUnder(env, c[i])
    {
      if i < |b| {
        assert c[i] == b[i];
      }
    }
  }

  lemma BookingsExtend(booked: seq<Booking>, env: Env, id: int, taken: seq<Delta>)
    requires env.Bills(id) && forall d :: d in taken ==> d.path == id
    ensures Extends(booked, booked + Bookings(taken, Entries(taken, env.paths[id].plan, env.now)), env)
  {
    hide EntryOf;
    var more := Bookings(taken, Entries(taken, env.paths[id].plan, env.now));
    forall i | |booked| <= i < |booked + more|
      ensures BookedUnder(env, (booked + more)[i])
    {
      assert (booked + more)[i] == more[i - |booked|] && taken[i - |booked|] in taken;
    }
  }

  /** Booking one path's deltas adds them to that path and to no other. */
  lemma BookedFor(booked: seq<Booking>, env: Env, id: int, taken: seq<Delta>, p: int)
    requires forall d :: d in taken ==> d.path == id
    ensures env.Bills(id) ==>
              BilledTo(booked + Bookings(taken, Entries(taken, env.paths[id].plan, env.now)), p)
              == BilledTo(booked, p) + if p == id then taken else []
    ensures BilledTo(booked + [], p) == BilledTo(booked, p)
  {
    assert booked + [] == booked;
    if env.Bills(id) {
      var more := Bookings(taken, Entries(taken, env.paths[id].plan, env.now));
      BilledToConcat(booked, more, p);
      assert Deltas(more) == taken;
      OnlyPath(taken, id, p);
    }
  }

  class ControlServer {
    const store: Store

    constructor (store: Store)
      ensures this.store == store
    {
      this.store := store;
    }

    ghost function AccountOf(p: int): Account
      reads this, store
    {
      Account(Mark(store.watermark, p), BilledTo(store.booked, p))
    }

    /** Converts a batch for the ledger, delta by delta. */
    static method BuildEntries(samples: seq<Delta>, plan: Quota.Plan, now: int, ghost source: seq<Delta>)
      returns (entries: seq<Entry>)
      requires samples == Checked(source, now)
      ensures entries == Entries(source, plan, now)
    {
      hide EntryOf, CheckDelta;
      entries := [];
      var i := 0;
      while i < |samples|
        invariant 0 <= i <= |samples|
        invariant entries == Entries(source, plan, now)[..i]
      {
        CheckedEntry(source[i], plan, now);
        entries := entries + [EntryOf(samples[i], plan, now)];
        i := i + 1;
      }
      assert entries == Entries(source, plan, now);
    }

    /** Books one path's samples, or only moves its watermark where there is nothing to bill. */
    method AddUsageBatch(p: int, samples: seq<Delta>, mark: nat, env: Env, ghost source: seq<Delta>)
      returns (ok: bool)
      requires store.Valid()
      requires samples == Checked(source, env.now) && forall d :: d in source ==> d.path == p
      modifies store
      ensures store.Valid() && ok == env.outcome(p).Committed?
      ensures store.watermark ==
              if env.outcome(p).RolledBack? then old(store.watermark) else old(store.watermark)[p := mark]
      ensures store.booked == old(store.booked) +
              if p in env.paths && env.paths[p].metered && !env.outcome(p).RolledBack?
              then Bookings(source, Entries(source, env.paths[p].plan, env.now)) else []
    {
      if p !in env.paths || !env.paths[p].metered {
        ok := store.SetMark(p, mark, env.outcome(p));
        assert store.booked + [] == store.booked;
        return;
      }
      var entries := BuildEntries(samples, env.paths[p].plan, env.now, source);
      ok := store.AddUsageBatch(p, entries, mark, env.outcome(p), source);
      assert store.booked == old(store.booked) + if env.outcome(p).Durable() then Bookings(source, entries) else [];
    }

    /** First half of an application: one scan of the frame, nothing written. */
    method ScanFrame(frame: seq<Delta>, env: Env)
      returns (batches: map<int, PathBatch>, order: seq<int>, unread: set<int>, ack: map<int, nat>)
      ensures forall p :: Scanned(env, frame, p, Mark(store.watermark, p), ViewOf(batches, unread, ack, p))
      ensures Lists(order, batches.Keys)
    {
      hide Accepted, Touches, Checked;
      batches, order, unread, ack := map[], [], {}, map[];
      ScanStart(env, store.watermark);
      var i := 0;
      while i < |frame|
        invariant 0 <= i <= |frame|
        invariant forall p :: Scanned(env, frame[..i], p, Mark(store.watermark, p), ViewOf(batches, unread, ack, p))
        invariant Lists(order, batches.Keys)
      {
        var d := frame[i];
        ghost var was := (p: int) => ViewOf(batches, unread, ack, p);
        if d.path !in env.paths && (d.path <= 0 || d.path >= MAX_DELTA_PATH_ID) {
        } else if d.num > MAX_DELTA_SEQUENCE {
        } else if d.path in unread {
        } else if d.path !in batches && d.path in env.unreadable {
          unread := unread + {d.path};
        } else {
          if d.path !in batches {
            var last := Mark(store.watermark, d.path);
            batches := batches[d.path := PathBatch(last, last, [])];
            order := order + [d.path];
            ack := ack[d.path := last];
          }
          var b := batches[d.path];
          if d.num <= b.seen {
          } else if d.num - b.base > MAX_SEQUENCE_JUMP {
          } else {
            batches := batches[d.path := PathBatch(b.base, d.num, b.samples + [CheckDelta(d, env.now)])];
          }
        }
        assert ViewOf(batches, unread, ack, d.path) == Looked(env, Mark(store.watermark, d.path), was(d.path), d);
        forall p
          ensures Scanned(env, frame[..i + 1], p, Mark(store.watermark, p), ViewOf(batches, unread, ack, p))
        {
          assert frame[..i + 1] == frame[..i] + [d];
          ScanStep(env, frame[..i], d, p, Mark(store.watermark, p), was(p));
        }
        i := i + 1;
      }
      assert frame[..i] == frame;
    }

    /** Commits what the scan holds for one path, and says whether it is known to be recorded. */
    method CommitPath(id: int, b: PathBatch, frame: seq<Delta>, env: Env) returns (ok: bool)
      requires store.Valid()
      requires Scanned(env, frame, id, Mark(store.watermark, id), View(Some(b), false, Some(Mark(store.watermark, id))))
      modifies store
      ensures store.Valid()
      ensures forall p :: AccountOf(p) == if p == id then Settled(env, frame, p, old(AccountOf(p))) else old(AccountOf(p))
      ensures Acked(env, frame, id, old(AccountOf(id)).mark) == Some(if ok then b.seen else old(AccountOf(id)).mark)
      ensures Extends(old(store.booked), store.booked, env)
    {
      hide Accepted, OfPath, BilledTo, EntryOf, BookedUnder, IsRecord, Touches;
      ok := false;
      if |b.samples| == 0 {
        return;
      }
      ghost var taken := Accepted(Mark(store.watermark, id), OfPath(frame, id));
      AcceptedShape(Mark(store.watermark, id), OfPath(frame, id));
      OfPathMembers(frame, id);
      ok := AddUsageBatch(id, b.samples, b.seen, env, taken);
      if env.Bills(id) {
        BookingsExtend(old(store.booked), env, id, taken);
      }
      forall p ensures AccountOf(p) == if p == id then Settled(env, frame, p, old(AccountOf(p))) else old(AccountOf(p)) {
        BookedFor(old(store.booked), env, id, taken, p);
      }
    }

    /** Folds one frame into the ledger and says, per path, how far the sender may forget. */
    method ApplyUsage(deltas: seq<Delta>, env: Env) returns (ack: map<int, nat>)
      requires store.Valid()
      modifies store
      ensures store.Valid()
      ensures forall p :: AccountOf(p) == Settled(env, Frame(deltas), p, old(AccountOf(p)))
      ensures forall p :: AckFor(ack, p) == Acked(env, Frame(deltas), p, old(AccountOf(p)).mark)
      ensures Extends(old(store.booked), store.booked, env)
    {
      var frame := deltas;
      if |frame| > MAX_DELTAS_PER_FRAME {
        frame := frame[..MAX_DELTAS_PER_FRAME];
      }
      var batches, order, unread, first := ScanFrame(frame, env);
      ack := first;
      var k := 0;
      while k < |order|
        invariant 0 <= k <= |order| && store.Valid() && Extends(old(store.booked), store.booked, env)
        invariant forall p :: Halfway(env, frame, p, p in order[..k], old(AccountOf(p)), AccountOf(p),
                                      AckFor(first, p), AckFor(ack, p))
      {
        var id := order[k];
        var b := batches[id];
        assert id in order && id !in order[..k];
        assert Halfway(env, frame, id, false, old(AccountOf(id)), AccountOf(id), AckFor(first, id), AckFor(ack, id));
        assert Scanned(env, frame, id, Mark(store.watermark, id), ViewOf(batches, unread, first, id));
        label booking:
        ghost var sofar := ack;
        var ok := CommitPath(id, b, frame, env);
        ExtendsFurther(old(store.booked), old@booking(store.booked), store.booked, env);
        if ok {
          ack := ack[id := b.seen];
        }
        forall p ensures Halfway(env, frame, p, p in order[..k + 1], old(AccountOf(p)), AccountOf(p),
                                 AckFor(first, p), AckFor(ack, p)) {
          assert Halfway(env, frame, p, p in order[..k], old(AccountOf(p)), old@booking(AccountOf(p)),
                         AckFor(first, p), AckFor(sofar, p));
        }
        assert order[..k + 1] == order[..k] + [id];
        k := k + 1;
      }
      assert order[..k] == order;
      forall p
        ensures AccountOf(p) == Settled(env, frame, p, old(AccountOf(p)))
        ensures AckFor(ack, p) == Acked(env, frame, p, old(AccountOf(p)).mark)
      {
        assert Halfway(env, frame, p, p in order[..k], old(AccountOf(p)), AccountOf(p), AckFor(first, p), AckFor(ack, p));
        assert Scanned(env, frame, p, old(AccountOf(p)).mark, ViewOf(batches, unread, first, p));
      }
    }
  }

  function AckFor(ack: map<int, nat>, p: int): Option<nat> {
    if p in ack then Some(ack[p]) else None
  }

  /** During the commits each path is either settled and acknowledged, or not yet reached. */
  predicate Halfway(env: Env, frame: seq<Delta>, p: int, done: bool, was: Account, now: Account,
                    first: Option<nat>, ack: Option<nat>) {
    if done then now == Settled(env, frame, p, was) && ack == Acked(env, frame, p, was.mark)
    else now == was && ack == first
  }
}
