/**
 From the counters to the ledger: what a path's columns hold, set against what its interface
 carried, over whole runs of both ends.
 */
module Billing {
  import opened UsageDeltas
  import opened Ledger
  import opened UsageIntake
  import opened Meter
  import opened MeteringRuns
  import opened Words
  import Quota

  // ---- the columns of one path -----------------------------------------

  /** The bytes of one column; a row that does not exist holds none. */
  function Column(ledger: map<Key, Cell>, key: Key): int { if key in ledger then ledger[key].bytes else 0 }

  /** The byte columns of a path over a list of periods. */
  function Columns(ledger: map<Key, Cell>, p: int, periods: seq<int>): int {
    if periods == [] then 0
    else Columns(ledger, p, periods[..|periods| - 1]) + Column(ledger, (p, periods[|periods| - 1]))
  }

  /** A list of periods naming each that has a row for the path, and none twice. */
  ghost predicate AllPeriods(ledger: map<Key, Cell>, p: int, periods: seq<int>) {
    && (forall i, j :: 0 <= i < j < |periods| ==> periods[i] != periods[j])
    && forall k :: k in ledger && k.0 == p ==> k.1 in periods
  }

  /** The bytes booked for a path, whatever the period. */
  function BookedBytes(booked: seq<Booking>, p: int): nat {
    if booked == [] then 0
    else
      var b := booked[|booked| - 1];
      BookedBytes(booked[..|booked| - 1], p) + if b.delta.path == p then NonNegative(b.entry.bytes) else 0
  }

  function Totals(booked: seq<Booking>, p: int, periods: seq<int>): int {
    if periods == [] then 0
    else Totals(booked, p, periods[..|periods| - 1]) + Total(booked, (p, periods[|periods| - 1])).bytes
  }

  lemma {:induction false} TotalsNext(booked: seq<Booking>, b: Booking, p: int, periods: seq<int>)
    requires forall i, j :: 0 <= i < j < |periods| ==> periods[i] != periods[j]
    ensures Totals(booked + [b], p, periods)
            == Totals(booked, p, periods)
               + if b.delta.path == p && b.entry.period in periods then NonNegative(b.entry.bytes) else 0
  {
    if periods != [] {
      var front, last := periods[..|periods| - 1], periods[|periods| - 1];
      assert periods == front + [last];
      TotalsNext(booked, b, p, front);
      assert (booked + [b])[..|booked|] == booked;
    }
  }

  lemma {:induction false} TotalsAre(booked: seq<Booking>, p: int, periods: seq<int>)
    requires forall i, j :: 0 <= i < j < |periods| ==> periods[i] != periods[j]
    requires forall b :: b in booked && b.delta.path == p ==> b.entry.period in periods
    ensures Totals(booked, p, periods) == BookedBytes(booked, p)
  {
    if booked == [] {
      NothingBooked(p, periods);
    } else {
      var front, b := booked[..|booked| - 1], booked[|booked| - 1];
      assert booked == front + [b];
      TotalsAre(front, p, periods);
      TotalsNext(front, b, p, periods);
    }
  }

  lemma {:induction false} NothingBooked(p: int, periods: seq<int>)
    ensures Totals([], p, periods) == 0
  {
    if periods != [] {
      NothingBooked(p, periods[..|periods| - 1]);
    }
  }

  lemma {:induction false} ColumnsAre(ledger: map<Key, Cell>, booked: seq<Booking>, p: int, periods: seq<int>)
    requires Balanced(ledger, booked)
    requires forall k :: k in ledger && k.0 == p ==> ledger[k].bytes < MAX_LEDGER_VALUE
    ensures Columns(ledger, p, periods) == Totals(booked, p, periods)
  {
    if periods != [] {
      var key := (p, periods[|periods| - 1]);
      ColumnsAre(ledger, booked, p, periods[..|periods| - 1]);
      assert BalancedAt(ledger, booked, key);
      if key !in ledger {
        EmptyTotal(booked, key);
      }
    }
  }

  /** While no column of a path is at its cap, its columns over all periods add up to exactly what was
      booked for it. */
  lemma ColumnsHoldBookings(ledger: map<Key, Cell>, booked: seq<Booking>, p: int, periods: seq<int>)
    requires Balanced(ledger, booked) && AllPeriods(ledger, p, periods)
    requires forall k :: k in ledger && k.0 == p ==> ledger[k].bytes < MAX_LEDGER_VALUE
    ensures Columns(ledger, p, periods) == BookedBytes(booked, p)
  {
    forall b | b in booked && b.delta.path == p
      ensures b.entry.period in periods
    {
      assert BalancedAt(ledger, booked, (p, b.entry.period)) && On(b, (p, b.entry.period));
    }
    ColumnsAre(ledger, booked, p, periods);
    TotalsAre(booked, p, periods);
  }

  // ---- what a delta is booked as ---------------------------------------

  /** A plan that bills the payload and nothing else. */
  predicate Neutral(plan: Quota.Plan) { plan.overheadPerPacket <= 0 && plan.calibration == 100.0 }

  lemma NeutralBillsPayload(d: Delta, plan: Quota.Plan, now: int)
    requires Neutral(plan) && 0 <= d.bytes <= MAX_DELTA_BYTES
    ensures EntryOf(d, plan, now).bytes == d.bytes
  {
    var (bytes, packets) := ClampCounts(d.bytes, d.packets);
    hide Quota.PeriodStart, Quota.Metered;
    Quota.MeteredExact(bytes, packets, plan);
    assert Quota.Between(plan.overheadPerPacket, 0, Quota.MAX_OVERHEAD_PER_PACKET) == 0;
    assert packets * 0 == 0;
    assert Quota.EffectiveCalibration(plan.calibration) == 100.0;
    assert Quota.Scaled(bytes, 100.0) == bytes as real;
  }

  /** The bytes of a booking are those of the delta behind it. */
  predicate AtFaceValue(b: Booking) { b.entry.bytes == b.delta.bytes >= 0 }

  lemma BilledNext(front: seq<Booking>, b: Booking, p: int)
    ensures BilledTo(front + [b], p) == BilledTo(front, p) + if b.delta.path == p then [b.delta] else []
  {
    BilledToConcat(front, [b], p);
    assert Deltas([b]) == [b.delta];
    OnlyPath([b.delta], b.delta.path, p);
  }

  lemma {:induction false} BookedAtFaceValue(booked: seq<Booking>, p: int)
    requires forall b :: b in booked && b.delta.path == p ==> AtFaceValue(b)
    ensures BookedBytes(booked, p) == SumBytes(BilledTo(booked, p))
  {
    hide BilledTo;
    if booked == [] {
      NothingBilled(p);
    } else {
      var front, b := booked[..|booked| - 1], booked[|booked| - 1];
      assert booked == front + [b];
      BookedAtFaceValue(front, p);
      BilledNext(front, b, p);
      if b.delta.path == p {
        SumBytesSnoc(BilledTo(front, p), b.delta);
      } else {
        assert BilledTo(booked, p) == BilledTo(front, p);
      }
    }
  }

  lemma NothingBilled(p: int)
    ensures BilledTo([], p) == []
  {}

  // ---- runs ------------------------------------------------------------

  /** What the store has booked at each of the first moments of a run, up to the `n`th: a delivery
      extends it as `ApplyUsage` does, nothing else touches it, and a path's account is what it says. */
  ghost predicate BookedUpTo(ws: seq<World>, steps: seq<Step>, books: seq<seq<Booking>>, n: nat) {
    && |books| == n + 1 <= |ws| == |steps| + 1 && books[0] == []
    && (forall i, p :: 0 <= i <= n ==> BilledTo(books[i], p) == ws[i].AccountOf(p).billed)
    && (forall i, j :: 0 <= i < n && j == i + 1 ==> BookStep(books[i], books[j], steps[i]))
  }

  ghost predicate BookStep(before: seq<Booking>, after: seq<Booking>, step: Step) {
    if step.Deliver? then Extends(before, after, step.env) else after == before
  }

  ghost predicate Booked(ws: seq<World>, steps: seq<Step>, books: seq<seq<Booking>>) {
    BookedUpTo(ws, steps, books, |steps|)
  }

  /** Every delivery that billed the path did so at a neutral plan. */
  ghost predicate AlwaysNeutral(steps: seq<Step>, p: int) {
    forall i :: 0 <= i < |steps| && steps[i].Deliver? && p in steps[i].env.paths && steps[i].env.paths[p].metered ==>
      Neutral(steps[i].env.paths[p].plan)
  }

  lemma {:induction false} RunBooksAtFaceValue(ws: seq<World>, steps: seq<Step>, books: seq<seq<Booking>>, i: nat, p: int)
    requires Booked(ws, steps, books) && i < |ws| && AlwaysNeutral(steps, p)
    requires forall b :: b in books[i] && b.delta.path == p ==> 0 <= b.delta.bytes <= MAX_DELTA_BYTES
    ensures forall b :: b in books[i] && b.delta.path == p ==> AtFaceValue(b)
  {
    if i > 0 {
      var last := i - 1;
      assert forall b :: b in books[last] ==> b in books[i];
      RunBooksAtFaceValue(ws, steps, books, last, p);
      forall k | 0 <= k < |books[i]| && books[i][k].delta.path == p
        ensures AtFaceValue(books[i][k])
      {
        if k < |books[last]| {
          assert books[i][k] == books[last][k] && books[last][k] in books[last];
        } else {
          var b, env := books[i][k], steps[last].env;
          assert b in books[i] && BookedUnder(env, b);
          NeutralBillsPayload(b.delta, env.paths[p].plan, env.now);
        }
      }
    }
  }

  /** The ledger holds what was carried: billed at payload, with no delta out of bounds and no column
      at its cap, the growth of an interface's counters is its path's columns over all periods, plus
      what still waits in the buffer, plus what a full buffer dropped unbilled, plus what was
      discarded as unmetered. */
  lemma LedgerConserves(ws: seq<World>, steps: seq<Step>, books: seq<seq<Booking>>, i: nat, id: int, iface: string,
                        ledger: map<Key, Cell>, periods: seq<int>)
    requires Run(ws, steps) && Booked(ws, steps, books) && i < |ws|
    requires forall k :: 0 <= k < |steps| ==> HomedStep(steps[k], id, iface)
    requires AlwaysNeutral(steps, id) && forall d :: d in ws[i].Numbered(id) ==> 0 <= d.bytes <= MAX_DELTA_BYTES
    requires Balanced(ledger, books[i]) && AllPeriods(ledger, id, periods)
    requires forall k :: k in ledger && k.0 == id ==> ledger[k].bytes < MAX_LEDGER_VALUE
    ensures Columns(ledger, id, periods) == SumBytes(ws[i].AccountOf(id).billed)
    ensures var w := ws[i];
            Growth(w.Read(iface)) == Columns(ledger, id, periods) + BytesWith(w, w.Numbered(id), Waiting)
              + BytesWith(w, w.Numbered(id), Evicted) + BytesWith(w, w.Numbered(id), Discarded)
  {
    hide Run, HomedStep, AllPeriods, Balanced;
    BilledInBounds(ws, steps, books, i, id);
    RunBooksAtFaceValue(ws, steps, books, i, id);
    BookedAtFaceValue(books[i], id);
    ColumnsHoldBookings(ledger, books[i], id, periods);
    Conservation(ws, steps, i, id, iface);
  }

  // ---- every run has its books -----------------------------------------

  /** What a delivery adds to a path's billed deltas. */
  function Added(env: Env, frame: seq<Delta>, p: int, a: Account): seq<Delta> {
    var taken := Accepted(a.mark, OfPath(frame, p));
    if Touches(env, frame, p) && taken != [] && env.outcome(p).Durable() && env.Bills(p) then taken else []
  }

  lemma AddedIs(env: Env, frame: seq<Delta>, p: int, a: Account)
    ensures Settled(env, frame, p, a).billed == a.billed + Added(env, frame, p, a)
    ensures forall d :: d in Added(env, frame, p, a) ==> d.path == p && d in frame
  {
    hide Touches;
    AcceptedShape(a.mark, OfPath(frame, p));
    OfPathMembers(frame, p);
  }

  /** The paths of a frame, each once. */
  function PathsOf(frame: seq<Delta>): (ids: seq<int>)
    ensures forall d :: d in frame ==> d.path in ids
    ensures forall i, j :: 0 <= i < j < |ids| ==> ids[i] != ids[j]
  {
    if frame == [] then []
    else
      var front, last := frame[..|frame| - 1], frame[|frame| - 1];
      assert frame == front + [last];
      var ids := PathsOf(front);
      if last.path in ids then ids else ids + [last.path]
  }

  /** Path by path, the bookings of one delivery. */
  lemma {:induction false} BookPaths(w: World, env: Env, frame: seq<Delta>, booked: seq<Booking>, ids: seq<int>)
    returns (after: seq<Booking>)
    requires forall i, j :: 0 <= i < j < |ids| ==> ids[i] != ids[j]
    ensures Extends(booked, after, env)
    ensures forall p :: BilledTo(after, p)
                        == BilledTo(booked, p) + if p in ids then Added(env, frame, p, w.AccountOf(p)) else []
  {
    hide Added, BilledTo, BookedUnder;
    if ids == [] {
      after := booked;
    } else {
      var front, id := ids[..|ids| - 1], ids[|ids| - 1];
      assert ids == front + [id];
      var prior := BookPaths(w, env, frame, booked, front);
      after := BookOne(env, frame, id, w.AccountOf(id), prior);
      ExtendsFurther(booked, prior, after, env);
      forall p
        ensures BilledTo(after, p)
                == BilledTo(booked, p) + if p in ids then Added(env, frame, p, w.AccountOf(p)) else []
      {
        if p == id {
          assert p !in front;
          assert BilledTo(prior, p) == BilledTo(booked, p);
        } else {
          assert p in ids <==> p in front;
        }
      }
    }
  }

  lemma BookOne(env: Env, frame: seq<Delta>, id: int, a: Account, booked: seq<Booking>) returns (after: seq<Booking>)
    ensures Extends(booked, after, env)
    ensures forall p :: BilledTo(after, p) == BilledTo(booked, p) + if p == id then Added(env, frame, id, a) else []
  {
    hide BilledTo, BookedUnder;
    var taken := Added(env, frame, id, a);
    AddedIs(env, frame, id, a);
    if taken == [] {
      return booked;
    }
    var more := Bookings(taken, Entries(taken, env.paths[id].plan, env.now));
    after := booked + more;
    BookingsExtend(booked, env, id, taken);
    forall p
      ensures BilledTo(after, p) == BilledTo(booked, p) + if p == id then taken else []
    {
      BookedFor(booked, env, id, taken, p);
    }
  }

  lemma BooksNext(w: World, v: World, step: Step, booked: seq<Booking>) returns (after: seq<Booking>)
    requires NextStep(w, v, step) && forall p :: BilledTo(booked, p) == w.AccountOf(p).billed
    ensures BookStep(booked, after, step) && forall p :: BilledTo(after, p) == v.AccountOf(p).billed
  {
    hide BilledTo, Added, Extends, Settled;
    if step.Deliver? {
      var frame := Frame(step.usage);
      after := BookPaths(w, step.env, frame, booked, PathsOf(frame));
      forall p
        ensures BilledTo(after, p) == v.AccountOf(p).billed
      {
        AddedIs(step.env, frame, p, w.AccountOf(p));
        assert v.AccountOf(p) == Settled(step.env, frame, p, w.AccountOf(p));
        NoneElsewhere(step.env, frame, p, w.AccountOf(p));
      }
    } else {
      after := booked;
      assert forall p :: v.AccountOf(p) == w.AccountOf(p);
    }
  }

  lemma NoneElsewhere(env: Env, frame: seq<Delta>, p: int, a: Account)
    ensures p !in PathsOf(frame) ==> Added(env, frame, p, a) == []
  {
    AddedIs(env, frame, p, a);
    var added := Added(env, frame, p, a);
    assert forall i :: 0 <= i < |added| ==> added[i] in added;
  }

  lemma {:induction false} BooksUpTo(ws: seq<World>, steps: seq<Step>, n: nat) returns (books: seq<seq<Booking>>)
    requires Run(ws, steps) && n <= |steps|
    ensures BookedUpTo(ws, steps, books, n)
  {
    hide NextStep, BookStep, BilledTo;
    if n == 0 {
      books := [[]];
      forall p
        ensures BilledTo([], p) == ws[0].AccountOf(p).billed
      {
        NothingBilled(p);
      }
    } else {
      var before := BooksUpTo(ws, steps, n - 1);
      var after := BooksNext(ws[n - 1], ws[n], steps[n - 1], before[n - 1]);
      books := before + [after];
    }
  }

  /** Whatever was booked, there is a ledger that holds it. */
  lemma {:induction false} LedgerOf(booked: seq<Booking>) returns (ledger: map<Key, Cell>)
    ensures Balanced(ledger, booked)
  {
    if booked == [] {
      ledger := map[];
      assert forall k :: BalancedAt(ledger, booked, k);
    } else {
      var front, b := booked[..|booked| - 1], booked[|booked| - 1];
      assert booked == front + [b];
      var rest := LedgerOf(front);
      UpsertBalances(rest, front, b);
      ledger := Upsert(rest, (b.delta.path, b.entry.period), ClampLedger(b.entry.bytes), ClampLedger(b.entry.packets));
    }
  }

  lemma {:induction false} PeriodsIn(keys: set<Key>, p: int) returns (periods: seq<int>)
    ensures forall i, j :: 0 <= i < j < |periods| ==> periods[i] != periods[j]
    ensures forall k :: k in keys && k.0 == p ==> k.1 in periods
  {
    if keys == {} {
      periods := [];
    } else {
      var k :| k in keys;
      var rest := PeriodsIn(keys - {k}, p);
      periods := if k.1 in rest then rest else rest + [k.1];
    }
  }

  /** Every run has its books, and at every moment a ledger that holds them and a list of a path's
      periods: what `LedgerConserves` says, it says of every run. */
  lemma EveryRunIsBooked(ws: seq<World>, steps: seq<Step>, i: nat, p: int)
    returns (books: seq<seq<Booking>>, ledger: map<Key, Cell>, periods: seq<int>)
    requires Run(ws, steps) && i < |ws|
    ensures Booked(ws, steps, books) && Balanced(ledger, books[i]) && AllPeriods(ledger, p, periods)
  {
    hide Run, BookedUpTo, Balanced;
    Lengths(ws, steps);
    books := BooksUpTo(ws, steps, |steps|);
    BooksLength(ws, steps, books);
    ledger := LedgerOf(books[i]);
    periods := PeriodsIn(ledger.Keys, p);
  }

  lemma Lengths(ws: seq<World>, steps: seq<Step>)
    requires Run(ws, steps)
    ensures |ws| == |steps| + 1
  {}

  lemma BooksLength(ws: seq<World>, steps: seq<Step>, books: seq<seq<Booking>>)
    requires BookedUpTo(ws, steps, books, |steps|)
    ensures |books| == |steps| + 1
  {}

  lemma BilledInBounds(ws: seq<World>, steps: seq<Step>, books: seq<seq<Booking>>, i: nat, p: int)
    requires Run(ws, steps) && Booked(ws, steps, books) && i < |ws|
    requires forall d :: d in ws[i].Numbered(p) ==> 0 <= d.bytes <= MAX_DELTA_BYTES
    ensures forall b :: b in books[i] && b.delta.path == p ==> 0 <= b.delta.bytes <= MAX_DELTA_BYTES
  {
    AtMostOnce(ws, steps, i, i, p);
    OfPathMembers(Deltas(books[i]), p);
    forall b | b in books[i] && b.delta.path == p
      ensures 0 <= b.delta.bytes <= MAX_DELTA_BYTES
    {
      var k :| 0 <= k < |books[i]| && books[i][k] == b;
      assert Deltas(books[i])[k] == b.delta;
      assert b.delta in ws[i].AccountOf(p).billed;
      assert b.delta in ws[i].Numbered(p);
    }
  }
}
