/**
 Usage deltas as the backend numbers them and the frontend deduplicates them,
 with the bounds both ends apply and the per-path view of a buffer or a frame.
 */
module UsageDeltas {

  /** One metering sample of one path; `num` is the per-path number used to drop resends. */
  datatype Delta = Delta(path: int, bytes: int, packets: int, at: int, num: nat)

  const MAX_BUFFERED: nat := 50_000
  const MAX_DELTAS_PER_FRAME: nat := 1000
  const MAX_DELTA_SEQUENCE: nat := 0x100_0000_0000  // 1 << 40
  const MAX_SEQUENCE_JUMP: nat := 0x800_0000        // 1 << 27
  const MAX_DELTA_BYTES: int := 0x1000_0000_0000    // 1 << 44
  const MAX_DELTA_PACKETS: int := 0x100_0000_0000   // 1 << 40
  const MAX_DELTA_PATH_ID: int := 100
  const MAX_DELTA_SKEW: int := 3600
  const MAX_DELTA_AGE: int := 7 * 24 * 3600

  /** The deltas of one path, in the order they stand. */
  function OfPath(ds: seq<Delta>, p: int): (r: seq<Delta>)
    ensures |r| <= |ds|
  {
    if ds == [] then []
    else
      var front := OfPath(ds[..|ds| - 1], p);
      if ds[|ds| - 1].path == p then front + [ds[|ds| - 1]] else front
  }

  lemma {:induction false} OfPathConcat(a: seq<Delta>, b: seq<Delta>, p: int)
    ensures OfPath(a + b, p) == OfPath(a, p) + OfPath(b, p)
  {
    if b == [] {
      assert a + b == a;
    } else {
      var b' := b[..|b| - 1];
      OfPathConcat(a, b', p);
      assert (a + b)[..|a + b| - 1] == a + b';
    }
  }

  lemma OfPathSnoc(ds: seq<Delta>, d: Delta, p: int)
    ensures OfPath(ds + [d], p) == if d.path == p then OfPath(ds, p) + [d] else OfPath(ds, p)
  {
    assert (ds + [d])[..|ds|] == ds;
  }

  lemma {:induction false} OnlyPath(ds: seq<Delta>, id: int, p: int)
    requires forall d :: d in ds ==> d.path == id
    ensures OfPath(ds, p) == if p == id then ds else []
  {
    if ds != [] {
      OnlyPath(ds[..|ds| - 1], id, p);
    }
  }

  lemma {:induction false} OfPathMembers(ds: seq<Delta>, p: int)
    ensures forall d :: d in OfPath(ds, p) <==> d in ds && d.path == p
  {
    if ds != [] {
      OfPathMembers(ds[..|ds| - 1], p);
      assert ds == ds[..|ds| - 1] + [ds[|ds| - 1]];
    }
  }

  /** Sequence numbers strictly increase along the list. */
  predicate Ascending(ds: seq<Delta>) {
    forall i, j :: 0 <= i < j < |ds| ==> ds[i].num < ds[j].num
  }

  lemma AscendingPrefix(a: seq<Delta>, b: seq<Delta>)
    requires a <= b && Ascending(b)
    ensures Ascending(a)
  {
    forall i, j | 0 <= i < j < |a| ensures a[i].num < a[j].num {
      assert a[i] == b[i] && a[j] == b[j];
    }
  }

  lemma AscendingSnoc(a: seq<Delta>, d: Delta)
    requires Ascending(a) && forall e :: e in a ==> e.num < d.num
    ensures Ascending(a + [d])
  {}

  lemma AscendingJoin(a: seq<Delta>, b: seq<Delta>)
    requires Ascending(a) && Ascending(b)
    requires forall d, e :: d in a && e in b ==> d.num < e.num
    ensures Ascending(a + b)
  {
    var c := a + b;
    forall i, j | 0 <= i < j < |c| ensures c[i].num < c[j].num {
      if i < |a| <= j {
        assert c[i] in a && c[j] in b;
      }
    }
  }

  /** In an ascending list, everything below a member of a prefix is in that prefix. */
  lemma AscendingPrefixClosed(a: seq<Delta>, b: seq<Delta>, d: Delta, e: Delta)
    requires a <= b && Ascending(b)
    requires d in a && e in b && e.num < d.num
    ensures e in a
  {
    var i :| 0 <= i < |a| && a[i] == d;
    var j :| 0 <= j < |b| && b[j] == e;
    assert b[i] == d;
    assert j < i;
    assert a[j] == b[j];
  }

  /** A prefix of a list shows a prefix of each path. */
  lemma OfPathPrefix(a: seq<Delta>, b: seq<Delta>, p: int)
    requires a <= b
    ensures OfPath(a, p) <= OfPath(b, p)
  {
    OfPathConcat(a, b[|a|..], p);
    assert b == a + b[|a|..];
  }

  function SumBytes(ds: seq<Delta>): int {
    if ds == [] then 0 else SumBytes(ds[..|ds| - 1]) + ds[|ds| - 1].bytes
  }

  lemma SumBytesSnoc(ds: seq<Delta>, d: Delta)
    ensures SumBytes(ds + [d]) == SumBytes(ds) + d.bytes
  {
    assert (ds + [d])[..|ds|] == ds;
  }

  lemma {:induction false} SumBytesConcat(a: seq<Delta>, b: seq<Delta>)
    ensures SumBytes(a + b) == SumBytes(a) + SumBytes(b)
  {
    if b == [] {
      assert a + b == a;
    } else {
      var b' := b[..|b| - 1];
      SumBytesConcat(a, b');
      assert (a + b)[..|a + b| - 1] == a + b';
    }
  }
}
