/**
 The reply pacer: a token bucket per source address in a bounded, least-recently-seen table.
 */
module Pacing {
  import opened Words

  type Key = int

  datatype Entry = Entry(tokens: real, last: int)

  /** `order` runs from the most recently seen source to the least. */
  datatype Table = Table(held: map<Key, Entry>, order: seq<Key>)

  /** Burst and refill in bytes, the refill per unit of time; `idle` in units of time. */
  datatype Limits = Limits(burst: real, rate: real, idle: int, max: int)

  ghost predicate Sane(l: Limits) {
    l.burst >= 0.0 && l.rate >= 0.0 && l.max >= 1
  }

  // ---- one request -----------------------------------------------------

  function Earned(dt: int, rate: real): real { dt as real * rate }

  function MinReal(a: real, b: real): real { if a < b then a else b }

  function Refilled(e: Entry, now: int, l: Limits): Entry {
    if now > e.last then Entry(MinReal(l.burst, e.tokens + Earned(now - e.last, l.rate)), now) else e
  }

  ghost predicate NoRepeats(s: seq<Key>) { forall i, j :: 0 <= i < j < |s| ==> s[i] != s[j] }

  /** The list and the map hold the same sources, each once. */
  ghost predicate Agrees(t: Table) {
    NoRepeats(t.order) && forall k :: k in t.held <==> k in t.order
  }

  function Back(t: Table): Key
    requires t.order != []
  {
    t.order[|t.order| - 1]
  }

  /** Without its least recently seen source. */
  function Evicted(t: Table): Table
    requires t.order != []
  {
    Table(t.held - {Back(t)}, t.order[..|t.order| - 1])
  }

  lemma EvictedAgrees(t: Table)
    requires Agrees(t) && t.order != []
    ensures Agrees(Evicted(t))
    ensures forall k :: k in Evicted(t).held <==> k in t.held && k != Back(t)
    ensures forall k :: k in Evicted(t).held ==> Evicted(t).held[k] == t.held[k]
  {
    var front := t.order[..|t.order| - 1];
    assert t.order == front + [Back(t)];
  }

  function Pruned(t: Table, now: int, idle: int): (p: Table)
    requires Agrees(t)
    ensures Agrees(p)
    decreases |t.order|
  {
    if t.order == [] || now - t.held[Back(t)].last <= idle then t
    else
      EvictedAgrees(t);
      Pruned(Evicted(t), now, idle)
  }

  function Without(s: seq<Key>, k: Key): seq<Key> {
    if s == [] then [] else if s[0] == k then s[1..] else [s[0]] + Without(s[1..], k)
  }

  lemma Prepended(k: Key, s: seq<Key>)
    requires NoRepeats(s) && k !in s
    ensures NoRepeats([k] + s)
  {
    assert forall j :: 0 <= j < |s| ==> s[j] in s;
  }

  lemma HeadOnce(s: seq<Key>)
    requires NoRepeats(s) && s != []
    ensures NoRepeats(s[1..]) && s[0] !in s[1..] && forall x :: x in s <==> x == s[0] || x in s[1..]
  {
    assert s == [s[0]] + s[1..];
  }

  lemma {:induction false} WithoutKeeps(s: seq<Key>, k: Key)
    requires NoRepeats(s)
    ensures NoRepeats(Without(s, k)) && forall x :: x in Without(s, k) <==> x in s && x != k
  {
    hide NoRepeats;
    if s == [] {
      assert Without(s, k) == s;
    } else {
      HeadOnce(s);
      if s[0] != k {
        WithoutKeeps(s[1..], k);
        Prepended(s[0], Without(s[1..], k));
      }
    }
  }

  /** The table with the source's bucket brought up to date, or a full one for a new source. */
  function Seen(t: Table, k: Key, now: int, l: Limits): (s: Table)
    requires Agrees(t) && l.max >= 1
    ensures k in s.held
  {
    var p := Pruned(t, now, l.idle);
    if k in p.held then Table(p.held[k := Refilled(p.held[k], now, l)], [k] + Without(p.order, k))
    else
      var r := if |p.order| >= l.max then Evicted(p) else p;
      Table(r.held[k := Entry(l.burst, now)], [k] + r.order)
  }

  /** Whether a request pushes a source out of a full table to make room for its own. */
  predicate Evicts(t: Table, x: Key, now: int, l: Limits, k: Key)
    requires Agrees(t) && l.max >= 1
  {
    var p := Pruned(t, now, l.idle);
    x !in p.held && |p.order| >= l.max && Back(p) == k
  }

  function Charged(t: Table, k: Key, n: nat): Table
    requires k in t.held
  {
    if n as real > t.held[k].tokens then t
    else t.(held := t.held[k := t.held[k].(tokens := t.held[k].tokens - n as real)])
  }

  lemma SeenAgrees(t: Table, k: Key, now: int, l: Limits)
    requires Agrees(t) && l.max >= 1
    ensures Agrees(Seen(t, k, now, l))
  {
    var p := Pruned(t, now, l.idle);
    if k in p.held {
      WithoutKeeps(p.order, k);
    } else if |p.order| >= l.max {
      EvictedAgrees(p);
    }
  }

  class Pacer {
    const limits: Limits
    var held: map<Key, Entry>
    var order: seq<Key>

    constructor (l: Limits)
      requires l.max >= 1
      ensures limits == l && State() == Table(map[], []) && Valid()
    {
      limits, held, order := l, map[], [];
    }

    function State(): Table
      reads this
    {
      Table(held, order)
    }

    ghost predicate Valid()
      reads this
    {
      Agrees(State()) && limits.max >= 1
    }

    method Evict()
      requires Valid() && order != []
      modifies this
      ensures Valid() && State() == Evicted(old(State()))
    {
      EvictedAgrees(State());
      held := held - {order[|order| - 1]};
      order := order[..|order| - 1];
    }

    method Prune(now: int)
      requires Valid()
      modifies this
      ensures Valid() && State() == Pruned(old(State()), now, limits.idle)
    {
      while order != []
        invariant Valid()
        invariant Pruned(State(), now, limits.idle) == Pruned(old(State()), now, limits.idle)
        decreases |order|
      {
        if now - held[order[|order| - 1]].last <= limits.idle {
          return;
        }
        Evict();
      }
    }

    /** Whether a reply of `n` bytes to the source may go now; only then is its bucket charged. */
    method Allow(k: Key, n: nat, now: int) returns (ok: bool)
      requires Valid()
      modifies this
      ensures Valid() && State() == Charged(Seen(old(State()), k, now, limits), k, n)
      ensures ok == (n as real <= Seen(old(State()), k, now, limits).held[k].tokens)
    {
      hide Agrees, Pruned, Refilled, Without, Evicted;
      SeenAgrees(State(), k, now, limits);
      ghost var seen := Seen(State(), k, now, limits);
      Prune(now);
      if k in held {
        held := held[k := Refilled(held[k], now, limits)];
        order := [k] + Without(order, k);
      } else {
        if |order| >= limits.max {
          Evict();
        }
        held := held[k := Entry(limits.burst, now)];
        order := [k] + order;
      }
      assert State() == seen;
      ChargedAgrees(seen, k, n);
      if n as real > held[k].tokens {
        return false;
      }
      held := held[k := held[k].(tokens := held[k].tokens - n as real)];
      return true;
    }
  }

  lemma ChargedAgrees(t: Table, k: Key, n: nat)
    requires Agrees(t) && k in t.held
    ensures Agrees(Charged(t, k, n))
  {}

  // ---- runs ------------------------------------------------------------

  datatype Request = Request(key: Key, bytes: nat, now: int)

  ghost predicate Forward(rs: seq<Request>) {
    forall i, j :: 0 <= i < j < |rs| ==> rs[i].now <= rs[j].now
  }

  /** The table after the first `n` requests. */
  function After(rs: seq<Request>, n: nat, l: Limits): (t: Table)
    requires n <= |rs| && l.max >= 1
    ensures Agrees(t)
  {
    if n == 0 then Table(map[], [])
    else
      var r := rs[n - 1];
      SeenAgrees(After(rs, n - 1, l), r.key, r.now, l);
      Charged(Seen(After(rs, n - 1, l), r.key, r.now, l), r.key, r.bytes)
  }

  predicate Allowed(rs: seq<Request>, i: nat, l: Limits)
    requires i < |rs| && l.max >= 1
  {
    rs[i].bytes as real <= Seen(After(rs, i, l), rs[i].key, rs[i].now, l).held[rs[i].key].tokens
  }

  function LastOf(t: Table, k: Key): int { if k in t.held then t.held[k].last else 0 }

  ghost predicate Descending(t: Table, s: seq<Key>) {
    forall i, j :: 0 <= i < j < |s| ==> LastOf(t, s[i]) >= LastOf(t, s[j])
  }

  /** Most recently seen first, and nothing seen later than `now`. */
  ghost predicate Ordered(t: Table, now: int) {
    && Agrees(t)
    && (forall k :: k in t.held ==> t.held[k].last <= now)
    && Descending(t, t.order)
  }

  lemma {:induction false} PrunedOrdered(t: Table, now: int, idle: int)
    requires Ordered(t, now)
    ensures var p := Pruned(t, now, idle);
            && Ordered(p, now) && p.order <= t.order
            && (forall k :: k in p.held ==> k in t.held && p.held[k] == t.held[k] && now - p.held[k].last <= idle)
            && (forall k :: k in t.held && k !in p.held ==> now - t.held[k].last > idle)
    decreases |t.order|
  {
    if t.order != [] {
      if now - t.held[Back(t)].last <= idle {
        forall k | k in t.held
          ensures now - t.held[k].last <= idle
        {
          var i :| 0 <= i < |t.order| && t.order[i] == k;
        }
      } else {
        EvictedAgrees(t);
        PrunedOrdered(Evicted(t), now, idle);
      }
    }
  }

  lemma {:induction false} WithoutOrder(t: Table, s: seq<Key>, k: Key)
    requires Descending(t, s)
    ensures Descending(t, Without(s, k)) && forall x :: x in Without(s, k) ==> x in s
  {
    hide LastOf;
    if s != [] && s[0] != k {
      assert s == [s[0]] + s[1..];
      WithoutOrder(t, s[1..], k);
      forall x | x in Without(s[1..], k)
        ensures LastOf(t, s[0]) >= LastOf(t, x)
      {
        assert x in s[1..];
      }
    }
  }

  lemma SameDescending(t: Table, u: Table, s: seq<Key>)
    requires Descending(t, s) && forall x :: x in s ==> LastOf(u, x) == LastOf(t, x)
    ensures Descending(u, s)
  {
    hide LastOf;
    assert forall i :: 0 <= i < |s| ==> s[i] in s;
  }

  lemma EvictedOrdered(t: Table, now: int)
    requires Ordered(t, now) && t.order != []
    ensures Ordered(Evicted(t), now)
  {
    EvictedAgrees(t);
    assert forall x :: x in Evicted(t).held ==> LastOf(Evicted(t), x) == LastOf(t, x);
    assert forall i :: 0 <= i < |Evicted(t).order| ==> t.order[i] == Evicted(t).order[i] && t.order[i] in Evicted(t).order;
  }

  /** Taking a source out of the middle of the list. */
  lemma LiftedOrdered(t: Table, k: Key, now: int)
    requires Ordered(t, now) && k in t.held
    ensures var u := Table(t.held - {k}, Without(t.order, k));
            Ordered(u, now) && k !in u.order && |u.order| == |t.order| - 1
  {
    var u := Table(t.held - {k}, Without(t.order, k));
    WithoutOrder(t, t.order, k);
    WithoutKeeps(t.order, k);
    WithoutShorter(t.order, k);
    SameDescending(t, u, u.order);
    hide Without, Descending;
  }

  /** Putting a source just seen at the front. */
  lemma FrontOrdered(t: Table, k: Key, e: Entry, now: int)
    requires Ordered(t, now) && k !in t.order && e.last == now
    ensures Ordered(Table(t.held[k := e], [k] + t.order), now)
  {
    var u := Table(t.held[k := e], [k] + t.order);
    assert forall x :: x in t.order ==> x in t.held && LastOf(u, x) == LastOf(t, x) <= now;
    assert forall i :: 0 < i < |u.order| ==> u.order[i] == t.order[i - 1] && u.order[i] in t.order;
  }

  lemma SeenOrdered(t: Table, k: Key, now: int, l: Limits)
    requires Ordered(t, now) && l.max >= 1
    ensures Ordered(Seen(t, k, now, l), now) && |Seen(t, k, now, l).order| <= Max(|t.order|, l.max)
  {
    PrunedOrdered(t, now, l.idle);
    var p, s := Pruned(t, now, l.idle), Seen(t, k, now, l);
    hide Pruned;
    if k in p.held {
      LiftedOrdered(p, k, now);
      FrontOrdered(Table(p.held - {k}, Without(p.order, k)), k, Refilled(p.held[k], now, l), now);
      hide Ordered, Without;
      assert (p.held - {k})[k := s.held[k]] == p.held[k := s.held[k]];
    } else if |p.order| >= l.max {
      EvictedOrdered(p, now);
      EvictedAgrees(p);
      FrontOrdered(Evicted(p), k, Entry(l.burst, now), now);
      hide Ordered;
    } else {
      FrontOrdered(p, k, Entry(l.burst, now), now);
      hide Ordered;
    }
  }

  lemma {:induction false} WithoutShorter(s: seq<Key>, k: Key)
    requires k in s
    ensures |Without(s, k)| == |s| - 1
  {
    if s[0] != k {
      assert s == [s[0]] + s[1..];
      WithoutShorter(s[1..], k);
    }
  }

  /** While time runs forward the list stays sorted by when each source was last seen, agrees with
      the map, and never outgrows the bound. */
  lemma {:induction false} TableOrdered(rs: seq<Request>, n: nat, l: Limits, now: int)
    requires n <= |rs| && l.max >= 1 && Forward(rs) && (n > 0 ==> rs[n - 1].now <= now)
    ensures Ordered(After(rs, n, l), now) && |After(rs, n, l).order| <= l.max
  {
    if n > 0 {
      var r := rs[n - 1];
      TableOrdered(rs, n - 1, l, r.now);
      SeenOrdered(After(rs, n - 1, l), r.key, r.now, l);
    }
  }

  // ---- one source ------------------------------------------------------

  lemma EarnedMonotone(a: int, b: int, rate: real)
    requires a <= b && rate >= 0.0
    ensures Earned(a, rate) <= Earned(b, rate)
  {
    assert Earned(b, rate) - Earned(a, rate) == (b - a) as real * rate;
  }

  lemma EarnedAdds(a: int, b: int, rate: real)
    ensures Earned(a + b, rate) == Earned(a, rate) + Earned(b, rate)
  {}

  lemma EarnedIs(dt: int, rate: real)
    ensures Earned(dt, rate) == dt as real * rate
  {}

  lemma EarnedZero(rate: real)
    ensures Earned(0, rate) == 0.0
  {}

  /** A source's bucket at a request of its own, by what is held: brought up to date, or full. */
  function Bucket(held: map<Key, Entry>, k: Key, now: int, l: Limits): Entry {
    if k in held then Refilled(held[k], now, l) else Entry(l.burst, now)
  }

  function Drained(e: Entry, n: nat): Entry {
    if n as real > e.tokens then e else e.(tokens := e.tokens - n as real)
  }

  ghost predicate Bounded(held: map<Key, Entry>, now: int, l: Limits) {
    forall k :: k in held ==> 0.0 <= held[k].tokens <= l.burst && held[k].last <= now
  }

  lemma BucketBounded(held: map<Key, Entry>, k: Key, now: int, l: Limits)
    requires Bounded(held, now, l) && Sane(l)
    ensures 0.0 <= Bucket(held, k, now, l).tokens <= l.burst && Bucket(held, k, now, l).last == now
  {
    if k in held {
      EarnedMonotone(0, now - held[k].last, l.rate);
      EarnedZero(l.rate);
    }
    hide Earned;
  }

  /** An idle spell refills a whole bucket, so a pruned source comes back as if it had been kept. */
  lemma FullAgain(e: Entry, now: int, l: Limits)
    requires Sane(l) && Earned(l.idle, l.rate) >= l.burst && now - e.last >= l.idle && 0.0 <= e.tokens && e.last <= now
    requires e.tokens <= l.burst
    ensures Refilled(e, now, l) == Entry(l.burst, now)
  {
    EarnedMonotone(l.idle, now - e.last, l.rate);
    EarnedZero(l.rate);
    hide Earned;
  }

  /** What a request does to its own source's bucket: pruning makes no difference to it. */
  lemma SeenSelf(t: Table, k: Key, n: nat, now: int, l: Limits)
    requires Ordered(t, now) && Bounded(t.held, now, l) && Sane(l) && Earned(l.idle, l.rate) >= l.burst
    ensures var e, s := Bucket(t.held, k, now, l), Seen(t, k, now, l);
            s.held[k] == e && k in Charged(s, k, n).held && Charged(s, k, n).held[k] == Drained(e, n)
  {
    hide Agrees, Descending, Pruned, Earned, Without, Evicted;
    PrunedOrdered(t, now, l.idle);
    if k in t.held && k !in Pruned(t, now, l.idle).held {
      FullAgain(t.held[k], now, l);
    }
  }

  /** And to another's: it is kept as it was, unless it had been idle too long or was pushed out. */
  lemma SeenOther(t: Table, x: Key, n: nat, now: int, l: Limits, k: Key)
    requires Ordered(t, now) && l.max >= 1 && x != k
    ensures var s := Charged(Seen(t, x, now, l), x, n);
            && (k in s.held ==> k in t.held && s.held[k] == t.held[k])
            && (k in t.held && k !in s.held ==> Evicts(t, x, now, l, k) || now - t.held[k].last > l.idle)
  {
    hide Descending, Pruned, Without, Refilled;
    PrunedOrdered(t, now, l.idle);
    var p := Pruned(t, now, l.idle);
    if x !in p.held && |p.order| >= l.max {
      EvictedAgrees(p);
    }
    hide Agrees, Evicted;
  }

  lemma SeenBounded(t: Table, x: Key, n: nat, now: int, l: Limits)
    requires Ordered(t, now) && Bounded(t.held, now, l) && Sane(l) && Earned(l.idle, l.rate) >= l.burst
    ensures Bounded(Charged(Seen(t, x, now, l), x, n).held, now, l)
  {
    hide Descending, Seen, Charged, Earned, Agrees, Refilled, Evicts;
    var s := Charged(Seen(t, x, now, l), x, n);
    SeenSelf(t, x, n, now, l);
    BucketBounded(t.held, x, now, l);
    forall k | k in s.held
      ensures 0.0 <= s.held[k].tokens <= l.burst && s.held[k].last <= now
    {
      if k != x {
        SeenOther(t, x, n, now, l, k);
      }
    }
  }

  lemma AfterNext(rs: seq<Request>, n: nat, l: Limits)
    requires 0 < n <= |rs| && l.max >= 1
    ensures var r, t := rs[n - 1], After(rs, n - 1, l);
            After(rs, n, l) == Charged(Seen(t, r.key, r.now, l), r.key, r.bytes)
  {
    hide Charged, Seen;
  }

  lemma {:induction false} AfterBounded(rs: seq<Request>, n: nat, l: Limits, now: int)
    requires n <= |rs| && Forward(rs) && Sane(l) && Earned(l.idle, l.rate) >= l.burst
    requires n > 0 ==> rs[n - 1].now <= now
    ensures Bounded(After(rs, n, l).held, now, l) && Ordered(After(rs, n, l), now)
  {
    hide Ordered, Seen, Charged, Earned, Agrees;
    TableOrdered(rs, n, l, now);
    if n > 0 {
      var r := rs[n - 1];
      AfterBounded(rs, n - 1, l, r.now);
      SeenBounded(After(rs, n - 1, l), r.key, r.bytes, r.now, l);
      AfterNext(rs, n, l);
    }
  }

  // ---- pruning is invisible --------------------------------------------

  /** The same buckets kept for ever. */
  function Forever(rs: seq<Request>, n: nat, l: Limits): map<Key, Entry>
    requires n <= |rs|
  {
    if n == 0 then map[]
    else
      var r := rs[n - 1];
      var u := Forever(rs, n - 1, l);
      u[r.key := Drained(Bucket(u, r.key, r.now, l), r.bytes)]
  }

  predicate AllowedForever(rs: seq<Request>, i: nat, l: Limits)
    requires i < |rs|
  {
    rs[i].bytes as real <= Bucket(Forever(rs, i, l), rs[i].key, rs[i].now, l).tokens
  }

  /** No request from `from` up to `to` pushes the source out for room. */
  ghost predicate KeptIn(rs: seq<Request>, from: nat, to: nat, k: Key, l: Limits)
    requires to <= |rs| && l.max >= 1
  {
    forall i :: from <= i < to ==> !Evicts(After(rs, i, l), rs[i].key, rs[i].now, l, k)
  }

  /** A source's bucket is the one kept for ever, or has been dropped and would be full again. */
  ghost predicate Mirrors(held: map<Key, Entry>, u: map<Key, Entry>, k: Key, now: int, l: Limits) {
    && (k in held ==> k in u && held[k] == u[k])
    && (k in u ==> 0.0 <= u[k].tokens <= l.burst && u[k].last <= now)
    && (k in u && k !in held ==> now - u[k].last > l.idle)
  }

  lemma SameBucket(held: map<Key, Entry>, u: map<Key, Entry>, k: Key, now: int, l: Limits)
    requires Mirrors(held, u, k, now, l) && Sane(l) && Earned(l.idle, l.rate) >= l.burst
    ensures Bucket(held, k, now, l) == Bucket(u, k, now, l)
  {
    hide Earned;
    if k in u && k !in held {
      FullAgain(u[k], now, l);
    }
  }

  lemma MirrorsNext(t: Table, u: map<Key, Entry>, r: Request, k: Key, l: Limits)
    requires Ordered(t, r.now) && Bounded(t.held, r.now, l) && Mirrors(t.held, u, k, r.now, l) && Sane(l)
    requires Earned(l.idle, l.rate) >= l.burst && !Evicts(t, r.key, r.now, l, k)
    ensures Mirrors(Charged(Seen(t, r.key, r.now, l), r.key, r.bytes).held,
                    u[r.key := Drained(Bucket(u, r.key, r.now, l), r.bytes)], k, r.now, l)
  {
    hide Ordered, Seen, Charged, Earned, Agrees, Refilled, Evicts, Bounded;
    if r.key == k {
      SeenSelf(t, k, r.bytes, r.now, l);
      SameBucket(t.held, u, k, r.now, l);
      BucketBounded(t.held, k, r.now, l);
    } else {
      SeenOther(t, r.key, r.bytes, r.now, l, k);
    }
  }

  lemma {:induction false} AlwaysMirrors(rs: seq<Request>, n: nat, k: Key, l: Limits, now: int)
    requires n <= |rs| && Forward(rs) && Sane(l) && (n > 0 ==> rs[n - 1].now <= now)
    requires Earned(l.idle, l.rate) >= l.burst && KeptIn(rs, 0, n, k, l)
    ensures Mirrors(After(rs, n, l).held, Forever(rs, n, l), k, now, l)
  {
    hide Ordered, Seen, Charged, Earned, Agrees, Evicts, Bounded, Bucket, Drained, Mirrors, After, KeptIn;
    if n == 0 {
      MirrorsNothing(rs, k, l, now);
    } else {
      var r := rs[n - 1];
      KeptTo(rs, n, k, l);
      AlwaysMirrors(rs, n - 1, k, l, r.now);
      AfterBounded(rs, n - 1, l, r.now);
      MirrorsNext(After(rs, n - 1, l), Forever(rs, n - 1, l), r, k, l);
      AfterNext(rs, n, l);
      MirrorsLater(After(rs, n, l).held, Forever(rs, n, l), k, r.now, now, l);
    }
  }

  lemma MirrorsNothing(rs: seq<Request>, k: Key, l: Limits, now: int)
    requires l.max >= 1
    ensures Mirrors(After(rs, 0, l).held, Forever(rs, 0, l), k, now, l)
  {}

  lemma KeptTo(rs: seq<Request>, n: nat, k: Key, l: Limits)
    requires 0 < n <= |rs| && l.max >= 1 && KeptIn(rs, 0, n, k, l)
    ensures KeptIn(rs, 0, n - 1, k, l) && !Evicts(After(rs, n - 1, l), rs[n - 1].key, rs[n - 1].now, l, k)
  {
    hide Evicts, After;
  }

  lemma MirrorsLater(held: map<Key, Entry>, u: map<Key, Entry>, k: Key, now: int, later: int, l: Limits)
    requires Mirrors(held, u, k, now, l) && now <= later
    ensures Mirrors(held, u, k, later, l)
  {}

  /** Where an idle spell refills a whole bucket, dropping idle sources changes no answer: a source
      never pushed out for room is answered as by a table that forgot nobody. */
  lemma PruningInvisible(rs: seq<Request>, i: nat, l: Limits)
    requires i < |rs| && Forward(rs) && Sane(l)
    requires Earned(l.idle, l.rate) >= l.burst && KeptIn(rs, 0, i, rs[i].key, l)
    ensures Allowed(rs, i, l) == AllowedForever(rs, i, l)
  {
    hide Ordered, Earned, Agrees, KeptIn, Bounded, Bucket, Forever, After, Seen, Mirrors;
    var k, now := rs[i].key, rs[i].now;
    AlwaysMirrors(rs, i, k, l, now);
    AfterBounded(rs, i, l, now);
    SeenSelf(After(rs, i, l), k, 0, now, l);
    SameBucket(After(rs, i, l).held, Forever(rs, i, l), k, now, l);
  }

  // ---- what a reply costs -----------------------------------------------

  /** Between two requests of its own a source's bucket is left alone, or dropped after an idle spell. */
  lemma {:induction false} LeftAlone(rs: seq<Request>, i: nat, j: nat, l: Limits, e: Entry)
    requires i < j <= |rs| && Forward(rs) && Sane(l) && Earned(l.idle, l.rate) >= l.burst
    requires KeptIn(rs, i + 1, j, rs[i].key, l) && forall m :: i < m < j ==> rs[m].key != rs[i].key
    requires e == Drained(Bucket(After(rs, i, l).held, rs[i].key, rs[i].now, l), rs[i].bytes)
    ensures var held := After(rs, j, l).held;
            if rs[i].key in held then held[rs[i].key] == e else rs[j - 1].now - e.last > l.idle
    decreases j
  {
    hide Ordered, Seen, Charged, Earned, Agrees, Evicts, Bounded, Bucket;
    var k, last := rs[i].key, j - 1;
    var r := rs[last];
    AfterBounded(rs, last, l, r.now);
    AfterNext(rs, j, l);
    if i == last {
      SeenSelf(After(rs, i, l), k, r.bytes, r.now, l);
    } else {
      LeftAlone(rs, i, last, l, e);
      SeenOther(After(rs, last, l), r.key, r.bytes, r.now, l, k);
    }
  }

  /** What a source holds when a request of its own is weighed. */
  function Held(rs: seq<Request>, i: nat, l: Limits): real
    requires i < |rs| && l.max >= 1
  {
    Seen(After(rs, i, l), rs[i].key, rs[i].now, l).held[rs[i].key].tokens
  }

  /** A reply granted costs exactly its bytes and a refusal nothing: unless it is pushed out for room
      meanwhile, a source holds at its next request what it was left with and what it has earned since,
      up to the burst, and is served exactly when that covers the reply. */
  lemma ChargeIsExact(rs: seq<Request>, i: nat, j: nat, l: Limits)
    requires i < j < |rs| && Forward(rs) && Sane(l) && l.idle as real * l.rate >= l.burst
    requires rs[j].key == rs[i].key && forall m :: i < m < j ==> rs[m].key != rs[i].key
    requires KeptIn(rs, i + 1, j, rs[i].key, l)
    ensures Allowed(rs, i, l) <==> rs[i].bytes as real <= Held(rs, i, l)
    ensures var left := if Allowed(rs, i, l) then Held(rs, i, l) - rs[i].bytes as real else Held(rs, i, l);
            var full := left + (rs[j].now - rs[i].now) as real * l.rate;
            Held(rs, j, l) == if full < l.burst then full else l.burst
  {
    hide Ordered, Seen, Agrees, KeptIn, After, Held, Allowed, Bucket, Drained, Earned;
    EarnedIs(l.idle, l.rate);
    EarnedIs(rs[j].now - rs[i].now, l.rate);
    var k := rs[i].key;
    HeldIs(rs, i, l);
    HeldIs(rs, j, l);
    var e := Drained(Bucket(After(rs, i, l).held, k, rs[i].now, l), rs[i].bytes);
    LeftAlone(rs, i, j, l, e);
    DrainedIs(Bucket(After(rs, i, l).held, k, rs[i].now, l), rs[i].bytes, l);
    NextBucket(After(rs, j, l).held, k, e, rs[i].now, rs[j].now, l);
  }

  lemma HeldIs(rs: seq<Request>, i: nat, l: Limits)
    requires i < |rs| && Forward(rs) && Sane(l) && Earned(l.idle, l.rate) >= l.burst
    ensures var e := Bucket(After(rs, i, l).held, rs[i].key, rs[i].now, l);
            && Held(rs, i, l) == e.tokens && 0.0 <= e.tokens <= l.burst && e.last == rs[i].now
            && (Allowed(rs, i, l) <==> rs[i].bytes as real <= e.tokens)
  {
    hide Ordered, Seen, Agrees, After, Earned, Bucket;
    AfterBounded(rs, i, l, rs[i].now);
    SeenSelf(After(rs, i, l), rs[i].key, 0, rs[i].now, l);
    BucketBounded(After(rs, i, l).held, rs[i].key, rs[i].now, l);
  }

  lemma DrainedIs(e: Entry, n: nat, l: Limits)
    requires 0.0 <= e.tokens <= l.burst
    ensures var d := Drained(e, n);
            && d.last == e.last && 0.0 <= d.tokens <= l.burst
            && d.tokens == if n as real <= e.tokens then e.tokens - n as real else e.tokens
  {}

  lemma NextBucket(held: map<Key, Entry>, k: Key, e: Entry, was: int, now: int, l: Limits)
    requires Sane(l) && Earned(l.idle, l.rate) >= l.burst && was <= now
    requires e.last == was && 0.0 <= e.tokens <= l.burst
    requires if k in held then held[k] == e else now - was > l.idle
    ensures var full := e.tokens + Earned(now - was, l.rate);
            Bucket(held, k, now, l).tokens == if full < l.burst then full else l.burst
  {
    hide Earned;
    EarnedZero(l.rate);
    if k !in held {
      EarnedMonotone(l.idle, now - was, l.rate);
    }
  }

  /** A source never seen before holds a whole burst. */
  lemma FirstHoldsBurst(rs: seq<Request>, i: nat, l: Limits)
    requires i < |rs| && Forward(rs) && Sane(l) && l.idle as real * l.rate >= l.burst
    requires forall m :: 0 <= m < i ==> rs[m].key != rs[i].key
    ensures Held(rs, i, l) == l.burst
  {
    hide Ordered, Seen, Earned, Agrees, After;
    EarnedIs(l.idle, l.rate);
    NeverSeen(rs, i, l, rs[i].key);
    AfterBounded(rs, i, l, rs[i].now);
    SeenSelf(After(rs, i, l), rs[i].key, 0, rs[i].now, l);
  }

  lemma {:induction false} NeverSeen(rs: seq<Request>, n: nat, l: Limits, k: Key)
    requires n <= |rs| && Forward(rs) && Sane(l) && Earned(l.idle, l.rate) >= l.burst
    requires forall m :: 0 <= m < n ==> rs[m].key != k
    ensures k !in After(rs, n, l).held
  {
    hide Ordered, Seen, Charged, Earned, Agrees, Evicts, Bounded;
    if n > 0 {
      var r := rs[n - 1];
      NeverSeen(rs, n - 1, l, k);
      AfterBounded(rs, n - 1, l, r.now);
      AfterNext(rs, n, l);
      SeenOther(After(rs, n - 1, l), r.key, r.bytes, r.now, l, k);
    }
  }

  /** Who is pushed out is a source seen no later than any other left after pruning. */
  lemma EvictsOldest(t: Table, x: Key, now: int, l: Limits, k: Key)
    requires Ordered(t, now) && l.max >= 1 && Evicts(t, x, now, l, k)
    ensures k in t.held && x !in Pruned(t, now, l.idle).held
    ensures forall q :: q in t.held && now - t.held[q].last <= l.idle ==> t.held[k].last <= t.held[q].last
  {
    PrunedOrdered(t, now, l.idle);
    var p := Pruned(t, now, l.idle);
    hide Pruned;
    assert k in p.held && p.order[|p.order| - 1] == k;
    forall q | q in t.held && now - t.held[q].last <= l.idle
      ensures t.held[k].last <= t.held[q].last
    {
      assert q in p.held && q in p.order;
      var i :| 0 <= i < |p.order| && p.order[i] == q;
      if i < |p.order| - 1 {
        assert LastOf(p, p.order[i]) >= LastOf(p, p.order[|p.order| - 1]);
      }
    }
  }

  // ---- the bound -------------------------------------------------------

  /** Bytes granted to a source by requests `from` up to `to`. */
  function Granted(rs: seq<Request>, from: nat, to: nat, k: Key, l: Limits): nat
    requires from <= to <= |rs| && l.max >= 1
  {
    if from == to then 0
    else
      Granted(rs, from, to - 1, k, l)
      + if rs[to - 1].key == k && Allowed(rs, to - 1, l) then rs[to - 1].bytes else 0
  }

  /** How often requests `from` up to `to` pushed a source out for room. */
  function Evictions(rs: seq<Request>, from: nat, to: nat, k: Key, l: Limits): nat
    requires from <= to <= |rs| && l.max >= 1
  {
    if from == to then 0
    else
      Evictions(rs, from, to - 1, k, l)
      + if Evicts(After(rs, to - 1, l), rs[to - 1].key, rs[to - 1].now, l, k) then 1 else 0
  }

  /** A full bucket to begin with and one for every eviction. */
  function Bursts(evicted: nat, l: Limits): (b: real)
    ensures l.burst >= 0.0 ==> b >= l.burst
  {
    if evicted == 0 then l.burst else Bursts(evicted - 1, l) + l.burst
  }

  lemma {:induction false} BurstsAre(evicted: nat, l: Limits)
    ensures Bursts(evicted, l) == (1 + evicted) as real * l.burst
  {
    if evicted > 0 {
      BurstsAre(evicted - 1, l);
      assert (1 + evicted) as real * l.burst == evicted as real * l.burst + l.burst;
    }
  }

  /** What a source has been granted since `start`, with what it has left or would be given afresh,
      never exceeds its budget. */
  ghost predicate InBudget(granted: nat, evicted: nat, held: map<Key, Entry>, k: Key, start: int, now: int, l: Limits) {
    granted == 0
    || (if k in held then
          start <= held[k].last && granted as real + held[k].tokens <= Bursts(evicted, l) + Earned(held[k].last - start, l.rate)
        else granted as real + l.burst <= Bursts(evicted, l) + Earned(now - start, l.rate))
  }

  /** A request of the source's own. */
  lemma BudgetOwn(granted: nat, evicted: nat, held: map<Key, Entry>, k: Key, n: nat, start: int, was: int, now: int, l: Limits)
    requires InBudget(granted, evicted, held, k, start, was, l) && Bounded(held, now, l) && Sane(l) && start <= was <= now
    ensures var e := Bucket(held, k, now, l);
            forall after: map<Key, Entry> :: k in after && after[k] == Drained(e, n) ==>
              InBudget(granted + if n as real <= e.tokens then n else 0, evicted, after, k, start, now, l)
  {
    hide Earned;
    BucketBounded(held, k, now, l);
    EarnedZero(l.rate);
    EarnedMonotone(0, now - start, l.rate);
    EarnedMonotone(was - start, now - start, l.rate);
    if k in held {
      EarnedAdds(now - held[k].last, held[k].last - start, l.rate);
      EarnedMonotone(0, now - held[k].last, l.rate);
    }
    hide Bounded;
  }

  /** A request of another's. */
  lemma BudgetOther(granted: nat, evicted: nat, held: map<Key, Entry>, after: map<Key, Entry>, k: Key,
                    start: int, was: int, now: int, pushed: bool, l: Limits)
    requires InBudget(granted, evicted, held, k, start, was, l) && Bounded(held, now, l) && Sane(l) && start <= was <= now
    requires Earned(l.idle, l.rate) >= l.burst
    requires k in after ==> k in held && after[k] == held[k]
    requires k in held && k !in after ==> pushed || now - held[k].last > l.idle
    ensures InBudget(granted, evicted + if pushed then 1 else 0, after, k, start, now, l)
  {
    hide Earned;
    EarnedMonotone(was - start, now - start, l.rate);
    if k in held {
      EarnedAdds(now - held[k].last, held[k].last - start, l.rate);
      EarnedZero(l.rate);
      EarnedMonotone(0, now - held[k].last, l.rate);
      if now - held[k].last > l.idle {
        EarnedMonotone(l.idle, now - held[k].last, l.rate);
      }
    }
    assert Bursts(evicted + 1, l) == Bursts(evicted, l) + l.burst;
    hide Bounded;
  }

  lemma {:induction false} Budget(rs: seq<Request>, from: nat, to: nat, k: Key, l: Limits)
    requires from < |rs| && from < to <= |rs| && Forward(rs) && Sane(l) && Earned(l.idle, l.rate) >= l.burst
    ensures InBudget(Granted(rs, from, to, k, l), Evictions(rs, from, to, k, l), After(rs, to, l).held, k,
                     rs[from].now, rs[to - 1].now, l)
  {
    hide Granted, Evictions, After, Earned, InBudget, Bounded, Agrees, Ordered, Seen, Charged, Evicts, Bucket, Drained;
    var r, t := rs[to - 1], After(rs, to - 1, l);
    var was := if to - 1 == from then r.now else rs[to - 2].now;
    var granted, evicted := Granted(rs, from, to - 1, k, l), Evictions(rs, from, to - 1, k, l);
    if to - 1 == from {
      NothingYet(rs, from, k, t.held, was, l);
    } else {
      Budget(rs, from, to - 1, k, l);
    }
    AfterBounded(rs, to - 1, l, r.now);
    AfterNext(rs, to, l);
    Tallied(rs, from, to, k, l);
    if r.key == k {
      SeenSelf(t, k, r.bytes, r.now, l);
      NotItself(t, k, r.now, l);
      BudgetOwn(granted, evicted, t.held, k, r.bytes, rs[from].now, was, r.now, l);
    } else {
      SeenOther(t, r.key, r.bytes, r.now, l, k);
      BudgetOther(granted, evicted, t.held, After(rs, to, l).held, k, rs[from].now, was, r.now,
                  Evicts(t, r.key, r.now, l, k), l);
    }
  }

  lemma NothingYet(rs: seq<Request>, from: nat, k: Key, held: map<Key, Entry>, now: int, l: Limits)
    requires from <= |rs| && l.max >= 1
    ensures Granted(rs, from, from, k, l) == 0 && Evictions(rs, from, from, k, l) == 0
    ensures InBudget(0, 0, held, k, now, now, l)
  {}

  lemma Tallied(rs: seq<Request>, from: nat, to: nat, k: Key, l: Limits)
    requires from < to <= |rs| && l.max >= 1
    ensures var r, t := rs[to - 1], After(rs, to - 1, l);
            && Evictions(rs, from, to, k, l)
               == Evictions(rs, from, to - 1, k, l) + (if Evicts(t, r.key, r.now, l, k) then 1 else 0)
            && Granted(rs, from, to, k, l)
               == Granted(rs, from, to - 1, k, l)
                  + if r.key == k && r.bytes as real <= Seen(t, r.key, r.now, l).held[r.key].tokens then r.bytes else 0
  {
    hide Evicts, Seen, After, Agrees;
  }

  /** A source is not pushed out by a request of its own. */
  lemma NotItself(t: Table, k: Key, now: int, l: Limits)
    requires Agrees(t) && l.max >= 1
    ensures !Evicts(t, k, now, l, k)
  {}

  /** No source is served more than the burst plus the refill over any window, wherever the window is
      put, and one burst more for every time it was pushed out of a full table within it. */
  lemma WindowBound(rs: seq<Request>, from: nat, to: nat, k: Key, l: Limits)
    requires from < to <= |rs| && Forward(rs) && Sane(l) && l.idle as real * l.rate >= l.burst
    ensures Granted(rs, from, to, k, l) as real
            <= (1 + Evictions(rs, from, to, k, l)) as real * l.burst + (rs[to - 1].now - rs[from].now) as real * l.rate
  {
    hide Granted, Evictions, After, Earned, Agrees, Ordered, InBudget, Bounded, Bursts;
    EarnedIs(l.idle, l.rate);
    EarnedIs(rs[to - 1].now - rs[from].now, l.rate);
    var now, start, evicted := rs[to - 1].now, rs[from].now, Evictions(rs, from, to, k, l);
    Budget(rs, from, to, k, l);
    AfterBounded(rs, to, l, now);
    Spent(Granted(rs, from, to, k, l), evicted, After(rs, to, l).held, k, start, now, l);
    BurstsAre(evicted, l);
  }

  lemma Spent(granted: nat, evicted: nat, held: map<Key, Entry>, k: Key, start: int, now: int, l: Limits)
    requires InBudget(granted, evicted, held, k, start, now, l) && Bounded(held, now, l) && Sane(l) && start <= now
    ensures granted as real <= Bursts(evicted, l) + Earned(now - start, l.rate)
  {
    hide Earned, Bursts;
    EarnedZero(l.rate);
    EarnedMonotone(0, now - start, l.rate);
    if k in held {
      EarnedMonotone(held[k].last - start, now - start, l.rate);
    }
  }

  /** The defaults, in bytes and nanoseconds, refill a bucket many times over in an idle spell. */
  lemma DefaultsQualify()
    ensures var l := Limits(524288.0, 65536.0 / 1_000_000_000.0, 120_000_000_000, 4096);
            Sane(l) && Earned(l.idle, l.rate) >= l.burst
  {}
}
