/**
 The durable store's usage half: ledger columns that saturate, and the per-path
 watermark that moves in the same transaction.
 */
module Ledger {
  import opened UsageDeltas
  import opened Words

  const MAX_LEDGER_VALUE: int := 0x1000_0000_0000_0000  // 1 << 60

  /** One metered delta as the ledger takes it: converted and assigned to a period. */
  datatype Entry = Entry(period: int, at: int, bytes: int64, packets: int64)

  datatype Cell = Cell(bytes: int, packets: int)

  /** How a transaction ended: `Uncertain` is an error reported for one that did commit. */
  datatype Outcome = Committed | RolledBack | Uncertain {
    predicate Durable() { !RolledBack? }
  }

  /** The record, kept for the proof, of one entry folded into the ledger and the delta behind it. */
  datatype Booking = Booking(delta: Delta, entry: Entry)

  /** One raw row of the usage history, written beside the ledger in the same transaction. */
  datatype Row = Row(at: int, path: int, bytes: int, packets: int)

  type Key = (int, int)

  function ClampLedger(v: int): int {
    if v < 0 then 0 else if v > MAX_LEDGER_VALUE then MAX_LEDGER_VALUE else v
  }

  /** The column update on a row that exists: the sum, brought inside its bounds. */
  function Accumulate(stored: int, added: int): int {
    var capped := if stored + added < MAX_LEDGER_VALUE then stored + added else MAX_LEDGER_VALUE;
    if capped < 0 then 0 else capped
  }

  function Upsert(ledger: map<Key, Cell>, key: Key, bytes: int, packets: int): map<Key, Cell> {
    ledger[key := if key in ledger
                  then Cell(Accumulate(ledger[key].bytes, bytes), Accumulate(ledger[key].packets, packets))
                  else Cell(bytes, packets)]
  }

  // ---- what a column means --------------------------------------------

  function NonNegative(v: int): nat { if v < 0 then 0 else v }

  predicate On(b: Booking, key: Key) { (b.delta.path, b.entry.period) == key }

  /** True sums, unbounded, of the non-negative figures booked under one key. */
  function Total(booked: seq<Booking>, key: Key): (r: Cell)
    ensures r.bytes >= 0 && r.packets >= 0
  {
    if booked == [] then Cell(0, 0)
    else
      var b := booked[|booked| - 1];
      var t := Total(booked[..|booked| - 1], key);
      if On(b, key) then Cell(t.bytes + NonNegative(b.entry.bytes), t.packets + NonNegative(b.entry.packets))
      else t
  }

  function Capped(v: nat): int { if v < MAX_LEDGER_VALUE then v else MAX_LEDGER_VALUE }

  /** Every column holds the true sum, capped; a row exists exactly where something was booked. */
  ghost predicate Balanced(ledger: map<Key, Cell>, booked: seq<Booking>) {
    forall k :: BalancedAt(ledger, booked, k)
  }

  ghost predicate BalancedAt(ledger: map<Key, Cell>, booked: seq<Booking>, k: Key) {
    && (k in ledger <==> exists b :: b in booked && On(b, k))
    && (k in ledger ==> ledger[k] == Cell(Capped(Total(booked, k).bytes), Capped(Total(booked, k).packets)))
  }

  /** What a true sum is: each booking of the path in the period adds its own figures, and no other does. */
  lemma TotalAdds(booked: seq<Booking>, b: Booking, key: Key)
    ensures Total([], key) == Cell(0, 0)
    ensures var t := Total(booked, key);
            Total(booked + [b], key) ==
            if b.delta.path == key.0 && b.entry.period == key.1
            then Cell(t.bytes + Max(0, b.entry.bytes), t.packets + Max(0, b.entry.packets)) else t
  {
    assert (booked + [b])[..|booked|] == booked;
  }

  /** And a column is that sum, or the cap once it reaches it. */
  lemma ColumnIsCappedSum(ledger: map<Key, Cell>, booked: seq<Booking>, key: Key)
    requires Balanced(ledger, booked)
    ensures key in ledger <==> exists b :: b in booked && b.delta.path == key.0 && b.entry.period == key.1
    ensures key in ledger ==>
              && ledger[key].bytes == Min(Total(booked, key).bytes, 0x1000_0000_0000_0000)
              && ledger[key].packets == Min(Total(booked, key).packets, 0x1000_0000_0000_0000)
  {
    assert BalancedAt(ledger, booked, key);
    if key !in ledger {
      forall b | b in booked
        ensures !(b.delta.path == key.0 && b.entry.period == key.1)
      {
        assert !On(b, key);
      }
    }
  }

  lemma UpsertBalances(ledger: map<Key, Cell>, booked: seq<Booking>, b: Booking)
    requires Balanced(ledger, booked)
    ensures Balanced(Upsert(ledger, (b.delta.path, b.entry.period),
                            ClampLedger(b.entry.bytes), ClampLedger(b.entry.packets)), booked + [b])
  {
    var key := (b.delta.path, b.entry.period);
    var after := booked + [b];
    var next := Upsert(ledger, key, ClampLedger(b.entry.bytes), ClampLedger(b.entry.packets));
    assert after[..|booked|] == booked;
    forall k ensures BalancedAt(next, after, k) {
      assert BalancedAt(ledger, booked, k);
      if k == key {
        assert b in after && On(b, k);
        if k !in ledger { EmptyTotal(booked, k); }
      } else {
        assert forall x :: x in after && On(x, k) ==> x in booked;
        assert forall x :: x in booked ==> x in after;
      }
    }
  }

  lemma {:induction false} EmptyTotal(booked: seq<Booking>, k: Key)
    requires forall b :: b in booked ==> !On(b, k)
    ensures Total(booked, k) == Cell(0, 0)
  {
    if booked != [] {
      EmptyTotal(booked[..|booked| - 1], k);
    }
  }

  /** The deltas booked for one path, in order. */
  function BilledTo(booked: seq<Booking>, p: int): seq<Delta> {
    OfPath(Deltas(booked), p)
  }

  function Deltas(booked: seq<Booking>): seq<Delta> {
    seq(|booked|, i requires 0 <= i < |booked| => booked[i].delta)
  }

  lemma BilledToConcat(a: seq<Booking>, b: seq<Booking>, p: int)
    ensures BilledTo(a + b, p) == BilledTo(a, p) + BilledTo(b, p)
  {
    assert Deltas(a + b) == Deltas(a) + Deltas(b);
    OfPathConcat(Deltas(a), Deltas(b), p);
  }

  function Mark(watermark: map<int, nat>, p: int): nat {
    if p in watermark then watermark[p] else 0
  }

  class Store {
    var ledger: map<Key, Cell>
    var watermark: map<int, nat>
    var samples: seq<Row>
    ghost var booked: seq<Booking>

    ghost predicate Valid()
      reads this
    {
      Balanced(ledger, booked)
    }

    constructor ()
      ensures Valid() && booked == [] && watermark == map[] && samples == []
    {
      ledger, watermark, samples, booked := map[], map[], [], [];
    }

    /** Writes a path's watermark alone. */
    method SetMark(path: int, mark: nat, outcome: Outcome) returns (ok: bool)
      modifies this`watermark
      ensures ok == outcome.Committed?
      ensures watermark == if outcome.Durable() then old(watermark)[path := mark] else old(watermark)
    {
      ok := outcome.Committed?;
      if outcome.Durable() {
        watermark := watermark[path := mark];
      }
    }

    /** Folds a path's entries into the ledger, adds their history rows and moves the watermark, wholly
        or not at all. */
    method AddUsageBatch(path: int, entries: seq<Entry>, mark: nat, outcome: Outcome, ghost source: seq<Delta>)
      returns (ok: bool)
      requires Valid()
      requires |source| == |entries| && forall i :: 0 <= i < |source| ==> source[i].path == path
      modifies this
      ensures Valid()
      ensures ok == outcome.Committed?
      ensures watermark == if outcome.Durable() then old(watermark)[path := mark] else old(watermark)
      ensures booked == if outcome.Durable() then old(booked) + Bookings(source, entries) else old(booked)
      ensures samples == if outcome.Durable() then old(samples) + Rows(path, entries) else old(samples)
      ensures !outcome.RolledBack? ==>
                |samples| == |old(samples)| + |entries| && old(samples) <= samples
                && forall i :: 0 <= i < |entries| ==>
                     samples[|old(samples)| + i] ==
                     Row(entries[i].at, path, Max(0, Min(entries[i].bytes, MAX_LEDGER_VALUE)),
                         Max(0, Min(entries[i].packets, MAX_LEDGER_VALUE)))
    {
      if |entries| == 0 {
        assert samples + Rows(path, entries) == samples;
        assert booked + Bookings(source, entries) == booked;
        ok := SetMark(path, mark, outcome);
        return;
      }
      var rows, history := ledger, samples;
      ghost var all := booked;
      var i := 0;
      while i < |entries|
        invariant 0 <= i <= |entries| && unchanged(this)
        invariant all == booked + Bookings(source, entries)[..i]
        invariant history == samples + Rows(path, entries)[..i]
        invariant Balanced(rows, all)
      {
        var e := entries[i];
        var key := (path, e.period);
        ghost var b := Booking(source[i], e);
        assert key in rows ==> BalancedAt(rows, all, key);
        assert key in rows ==>
            MIN_INT64 <= rows[key].bytes + ClampLedger(e.bytes) <= MAX_INT64
            && MIN_INT64 <= rows[key].packets + ClampLedger(e.packets) <= MAX_INT64;
        UpsertBalances(rows, all, b);
        rows := Upsert(rows, key, ClampLedger(e.bytes), ClampLedger(e.packets));
        history := history + [Row(e.at, path, ClampLedger(e.bytes), ClampLedger(e.packets))];
        all := all + [b];
        i := i + 1;
      }
      assert Rows(path, entries)[..i] == Rows(path, entries);
      assert Bookings(source, entries)[..i] == Bookings(source, entries);
      ok := outcome.Committed?;
      if outcome.Durable() {
        ledger, samples, booked := rows, history, all;
        watermark := watermark[path := mark];
      }
    }
  }

  /** The history rows of a batch, clamped as the ledger's figures are. */
  function Rows(path: int, entries: seq<Entry>): seq<Row> {
    seq(|entries|, i requires 0 <= i < |entries| =>
      Row(entries[i].at, path, ClampLedger(entries[i].bytes), ClampLedger(entries[i].packets)))
  }

  ghost function Bookings(source: seq<Delta>, entries: seq<Entry>): seq<Booking>
    requires |source| == |entries|
  {
    seq(|source|, i requires 0 <= i < |source| => Booking(source[i], entries[i]))
  }

  /** A column never falls and never passes its ceiling, whatever batches are folded in. */
  lemma ColumnMonotone(ledger: map<Key, Cell>, booked: seq<Booking>,
                       later: map<Key, Cell>, more: seq<Booking>, k: Key)
    requires Balanced(ledger, booked) && Balanced(later, booked + more) && k in ledger
    ensures k in later
    ensures ledger[k].bytes <= later[k].bytes <= MAX_LEDGER_VALUE
    ensures ledger[k].packets <= later[k].packets <= MAX_LEDGER_VALUE
  {
    assert BalancedAt(ledger, booked, k) && BalancedAt(later, booked + more, k);
    var b :| b in booked && On(b, k);
    assert b in booked + more;
    TotalGrows(booked, more, k);
  }

  lemma {:induction false} TotalGrows(booked: seq<Booking>, more: seq<Booking>, k: Key)
    ensures Total(booked, k).bytes <= Total(booked + more, k).bytes
    ensures Total(booked, k).packets <= Total(booked + more, k).packets
  {
    if more == [] {
      assert booked + more == booked;
    } else {
      TotalGrows(booked, more[..|more| - 1], k);
      assert (booked + more)[..|booked + more| - 1] == booked + more[..|more| - 1];
    }
  }
}
