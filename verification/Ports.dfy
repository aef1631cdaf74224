/**
 Which connection limit guards which published port: interval arithmetic over the service rows,
 and the set names the limits' rules need.
 */
module Ports {
  import opened Words

  /** Ports `lo` to `hi`, both included. */
  datatype Range = Range(lo: int, hi: int)

  datatype Service = Service(name: string, tcp: bool, port: int, portEnd: int, newConnsPerSec: int, maxConnsPerSource: int)

  predicate In(p: int, r: Range) { r.lo <= p <= r.hi }

  ghost predicate InAny(p: int, rs: seq<Range>) { exists r :: r in rs && In(p, r) }

  predicate NonEmpty(rs: seq<Range>) { forall r :: r in rs ==> r.lo <= r.hi }

  // ---- subtraction -----------------------------------------------------

  /** One interval without another: what is left of it on either side. */
  function Cut(s: Range, c: Range): (out: seq<Range>)
    ensures forall p :: (exists r :: r in out && In(p, r)) <==> In(p, s) && !In(p, c)
    ensures s.lo <= s.hi ==> NonEmpty(out)
  {
    if c.hi < s.lo || c.lo > s.hi then
      assert s in [s];
      [s]
    else
      var left, right := Range(s.lo, c.lo - 1), Range(c.hi + 1, s.hi);
      var out := (if c.lo > s.lo then [left] else []) + (if c.hi < s.hi then [right] else []);
      assert c.lo > s.lo ==> left in out;
      assert c.hi < s.hi ==> right in out;
      out
  }

  lemma InConcat(p: int, a: seq<Range>, b: seq<Range>)
    ensures InAny(p, a + b) <==> InAny(p, a) || InAny(p, b)
  {
    if InAny(p, a) {
      var r :| r in a && In(p, r);
      assert r in a + b;
    }
    if InAny(p, b) {
      var r :| r in b && In(p, r);
      assert r in a + b;
    }
  }

  lemma InAppend(rs: seq<Range>, r: Range)
    ensures forall p :: InAny(p, rs + [r]) <==> InAny(p, rs) || In(p, r)
  {
    forall p
      ensures InAny(p, rs + [r]) <==> InAny(p, rs) || In(p, r)
    {
      InConcat(p, rs, [r]);
      assert r in [r];
    }
  }

  /** Every interval of `segs` without `c`. */
  method CutEach(segs: seq<Range>, c: Range) returns (next: seq<Range>)
    ensures forall p :: InAny(p, next) <==> InAny(p, segs) && !In(p, c)
    ensures NonEmpty(segs) ==> NonEmpty(next)
  {
    next := [];
    var i := 0;
    while i < |segs|
      invariant i <= |segs|
      invariant forall p :: InAny(p, next) <==> InAny(p, segs[..i]) && !In(p, c)
      invariant NonEmpty(segs) ==> NonEmpty(next)
    {
      var kept := Cut(segs[i], c);
      forall p
        ensures InAny(p, next + kept) <==> InAny(p, segs[..i + 1]) && !In(p, c)
      {
        InConcat(p, next, kept);
        InConcat(p, segs[..i], [segs[i]]);
        assert segs[..i] + [segs[i]] == segs[..i + 1];
        assert segs[i] in [segs[i]];
      }
      next := next + kept;
      i := i + 1;
    }
    assert segs[..i] == segs;
  }

  /** Exactly the ports of `base` that `cut` does not have. */
  method SubtractRanges(base: seq<Range>, cut: seq<Range>) returns (out: seq<Range>)
    ensures forall p :: InAny(p, out) <==> InAny(p, base) && !InAny(p, cut)
    ensures NonEmpty(base) ==> NonEmpty(out)
  {
    out := [];
    var i := 0;
    while i < |base|
      invariant i <= |base|
      invariant forall p :: InAny(p, out) <==> InAny(p, base[..i]) && !InAny(p, cut)
      invariant NonEmpty(base) ==> NonEmpty(out)
    {
      var segs := CutAll(base[i], cut);
      forall p
        ensures InAny(p, out + segs) <==> InAny(p, base[..i + 1]) && !InAny(p, cut)
      {
        InConcat(p, out, segs);
        InConcat(p, base[..i], [base[i]]);
        assert base[..i] + [base[i]] == base[..i + 1];
        assert base[i] in [base[i]];
      }
      out := out + segs;
      i := i + 1;
    }
    assert base[..i] == base;
  }

  method CutAll(b: Range, cut: seq<Range>) returns (segs: seq<Range>)
    ensures forall p :: InAny(p, segs) <==> In(p, b) && !InAny(p, cut)
    ensures b.lo <= b.hi ==> NonEmpty(segs)
  {
    segs := [b];
    assert b in segs;
    var i := 0;
    while i < |cut|
      invariant i <= |cut|
      invariant forall p :: InAny(p, segs) <==> In(p, b) && !InAny(p, cut[..i])
      invariant b.lo <= b.hi ==> NonEmpty(segs)
    {
      segs := CutEach(segs, cut[i]);
      forall p
        ensures InAny(p, cut[..i + 1]) <==> InAny(p, cut[..i]) || In(p, cut[i])
      {
        InConcat(p, cut[..i], [cut[i]]);
        assert cut[..i] + [cut[i]] == cut[..i + 1];
        assert cut[i] in [cut[i]];
      }
      i := i + 1;
    }
    assert cut[..i] == cut;
  }

  // ---- merging ---------------------------------------------------------

  predicate Before(a: Range, b: Range) { a.lo < b.lo || (a.lo == b.lo && a.hi <= b.hi) }

  ghost predicate Sorted(rs: seq<Range>) { forall i, j :: 0 <= i < j < |rs| ==> rs[i].lo <= rs[j].lo }

  function Insert(r: Range, rs: seq<Range>): seq<Range> {
    if rs == [] || Before(r, rs[0]) then [r] + rs else [rs[0]] + Insert(r, rs[1..])
  }

  function Sort(rs: seq<Range>): seq<Range> {
    if rs == [] then [] else Insert(rs[0], Sort(rs[1..]))
  }

  lemma {:induction false} InsertKeeps(r: Range, rs: seq<Range>)
    requires Sorted(rs)
    ensures Sorted(Insert(r, rs)) && forall q :: q in Insert(r, rs) <==> q == r || q in rs
  {
    if rs != [] && !Before(r, rs[0]) {
      InsertKeeps(r, rs[1..]);
      assert rs == [rs[0]] + rs[1..];
      var rest := Insert(r, rs[1..]);
      forall q | q in rest
        ensures rs[0].lo <= q.lo
      {
        if q != r {
          assert q in rs[1..];
        }
      }
    }
  }

  lemma {:induction false} SortKeeps(rs: seq<Range>)
    ensures Sorted(Sort(rs)) && forall q :: q in Sort(rs) <==> q in rs
  {
    if rs != [] {
      SortKeeps(rs[1..]);
      InsertKeeps(rs[0], Sort(rs[1..]));
      assert rs == [rs[0]] + rs[1..];
    }
  }

  /** In order, with at least one port between neighbours: what a kernel set accepts. */
  ghost predicate Normal(rs: seq<Range>) {
    NonEmpty(rs) && forall i, j :: 0 <= i < j < |rs| ==> rs[i].hi + 1 < rs[j].lo
  }

  /** The same ports, in normal form. */
  method MergePorts(ports: seq<Range>) returns (merged: seq<Range>)
    requires NonEmpty(ports)
    ensures Normal(merged) && forall p :: InAny(p, merged) <==> InAny(p, ports)
  {
    hide InAny, In, Normal, Sort, NonEmpty;
    if ports == [] {
      NoneNormal();
      return [];
    }
    var sorted := Sort(ports);
    SortedPorts(ports);
    merged := [sorted[0]];
    One(sorted[0]);
    assert sorted[..1] == merged;
    var i := 1;
    while i < |sorted|
      invariant 1 <= i <= |sorted| && |merged| > 0 && Normal(merged)
      invariant merged[|merged| - 1].lo <= sorted[i - 1].lo
      invariant forall p :: InAny(p, merged) <==> InAny(p, sorted[..i])
    {
      var r := sorted[i];
      var last := merged[|merged| - 1];
      InAppend(sorted[..i], r);
      assert sorted[..i] + [r] == sorted[..i + 1];
      if r.lo <= last.hi + 1 {
        if r.hi > last.hi {
          Widen(merged, r);
          merged := merged[|merged| - 1 := Range(last.lo, r.hi)];
        } else {
          Inside(merged, r);
        }
      } else {
        Append(merged, r);
        merged := merged + [r];
      }
      i := i + 1;
    }
    assert sorted[..i] == sorted;
  }

  lemma NoneNormal()
    ensures Normal([])
  {}

  lemma One(r: Range)
    requires r.lo <= r.hi
    ensures Normal([r])
  {}

  lemma SortedPorts(ports: seq<Range>)
    requires NonEmpty(ports)
    ensures var sorted := Sort(ports);
            && (ports != [] ==> sorted != [])
            && (forall i :: 0 <= i < |sorted| ==> sorted[i].lo <= sorted[i].hi)
            && (forall i :: 1 <= i < |sorted| ==> sorted[i - 1].lo <= sorted[i].lo)
            && (forall p :: InAny(p, sorted) <==> InAny(p, ports))
  {
    SortKeeps(ports);
    var sorted := Sort(ports);
    hide Sort, In;
    assert forall i :: 0 <= i < |sorted| ==> sorted[i] in sorted;
    if ports != [] {
      assert ports[0] in ports;
    }
  }

  lemma Inside(merged: seq<Range>, r: Range)
    requires |merged| > 0 && merged[|merged| - 1].lo <= r.lo && r.hi <= merged[|merged| - 1].hi
    ensures forall p :: In(p, r) ==> InAny(p, merged)
  {
    assert merged[|merged| - 1] in merged;
  }

  lemma Widen(merged: seq<Range>, r: Range)
    requires |merged| > 0 && Normal(merged)
    requires var last := merged[|merged| - 1]; last.lo <= r.lo <= last.hi + 1 && r.hi > last.hi
    ensures var wide := merged[|merged| - 1 := Range(merged[|merged| - 1].lo, r.hi)];
            Normal(wide) && forall p :: InAny(p, wide) <==> InAny(p, merged) || In(p, r)
  {
    var front, last := merged[..|merged| - 1], merged[|merged| - 1];
    var wide := Range(last.lo, r.hi);
    assert merged == front + [last] && merged[|merged| - 1 := wide] == front + [wide];
    InAppend(front, wide);
    InAppend(front, last);
    hide InAny;
  }

  lemma Append(merged: seq<Range>, r: Range)
    requires |merged| > 0 && Normal(merged) && merged[|merged| - 1].hi + 1 < r.lo <= r.hi
    ensures Normal(merged + [r]) && forall p :: InAny(p, merged + [r]) <==> InAny(p, merged) || In(p, r)
  {
    InAppend(merged, r);
    hide InAny;
  }

  /** A set of ports has one normal form only. */
  lemma {:induction false} NormalUnique(s: seq<Range>, t: seq<Range>)
    requires Normal(s) && Normal(t) && forall p :: InAny(p, s) <==> InAny(p, t)
    ensures s == t
  {
    hide InAny, Normal;
    LowEnds(s);
    LowEnds(t);
    if s != [] && t != [] {
      SameFirst(s, t);
      forall p
        ensures InAny(p, s[1..]) <==> InAny(p, t[1..])
      {
        RestOf(p, s);
        RestOf(p, t);
      }
      NormalUnique(s[1..], t[1..]);
    }
  }

  lemma SameFirst(s: seq<Range>, t: seq<Range>)
    requires Normal(s) && Normal(t) && s != [] && t != [] && forall p :: InAny(p, s) <==> InAny(p, t)
    ensures s[0] == t[0]
  {
    hide InAny;
    FirstBounds(s);
    FirstBounds(t);
    LowEnds(s);
    LowEnds(t);
    assert InAny(s[0].lo, t) && InAny(t[0].lo, s);
    assert !InAny(s[0].hi + 1, t) && !InAny(t[0].hi + 1, s);
  }

  lemma LowEnds(s: seq<Range>)
    requires Normal(s)
    ensures s != [] ==> s[0].lo <= s[0].hi && Normal(s[1..])
    ensures forall i :: 0 <= i < |s| ==> InAny(s[i].lo, s)
    ensures s == [] ==> forall p :: !InAny(p, s)
  {
    forall i | 0 <= i < |s|
      ensures InAny(s[i].lo, s)
    {
      assert s[i] in s;
    }
  }

  /** The first interval runs from the least port to just before the first gap. */
  lemma FirstBounds(s: seq<Range>)
    requires Normal(s) && s != []
    ensures (forall p :: InAny(p, s) ==> s[0].lo <= p)
    ensures (forall p :: s[0].lo <= p <= s[0].hi ==> InAny(p, s)) && !InAny(s[0].hi + 1, s)
  {
    assert s[0] in s;
  }

  lemma RestOf(p: int, s: seq<Range>)
    requires Normal(s) && s != []
    ensures InAny(p, s[1..]) <==> InAny(p, s) && !In(p, s[0])
  {
    assert s == [s[0]] + s[1..];
    InConcat(p, [s[0]], s[1..]);
    assert s[0] in [s[0]];
  }

  // ---- who guards which port -------------------------------------------

  /** The two per-source limits a row can override. */
  datatype Limit = Rate | Count

  predicate Overrides(sv: Service, limit: Limit) {
    sv.tcp && (if limit == Rate then sv.newConnsPerSec else sv.maxConnsPerSource) > 0
  }

  function PortsOf(sv: Service): Range { Range(sv.port, if sv.portEnd > sv.port then sv.portEnd else sv.port) }

  /** A row publishes the port over TCP. */
  ghost predicate Published(p: int, services: seq<Service>) {
    exists sv :: sv in services && sv.tcp && sv.port <= p <= Max(sv.port, sv.portEnd)
  }

  /** A row that publishes it sets the limit itself: new connections a second, or connections held. */
  ghost predicate Overridden(p: int, services: seq<Service>, limit: Limit) {
    exists sv :: sv in services && sv.tcp && sv.port <= p <= Max(sv.port, sv.portEnd)
                 && if limit == Rate then sv.newConnsPerSec > 0 else sv.maxConnsPerSource > 0
  }

  /** The ports one shared rule covers. Together with the override rules it guards every published
      port, and no port is under both: each faces the one limit chosen for it. */
  method SharedConnPorts(services: seq<Service>, limit: Limit) returns (shared: seq<Range>)
    ensures Normal(shared)
    ensures forall p :: Published(p, services) <==> InAny(p, shared) || Overridden(p, services, limit)
    ensures forall p :: !(InAny(p, shared) && Overridden(p, services, limit))
  {
    hide InAny, Published, Overridden, In, Normal;
    var base, cut := [], [];
    NoPorts(limit);
    var i := 0;
    while i < |services|
      invariant i <= |services| && NonEmpty(base)
      invariant forall p :: InAny(p, cut) <==> Overridden(p, services[..i], limit)
      invariant forall p :: InAny(p, base) || InAny(p, cut) <==> Published(p, services[..i])
    {
      var sv := services[i];
      var r := PortsOf(sv);
      NextService(services, i, limit);
      if sv.tcp {
        if Overrides(sv, limit) {
          InAppend(cut, r);
          cut := cut + [r];
        } else {
          InAppend(base, r);
          base := base + [r];
        }
      }
      i := i + 1;
    }
    assert services[..i] == services;
    var left := SubtractRanges(base, cut);
    shared := MergePorts(left);
  }

  lemma NoPorts(limit: Limit)
    ensures forall p :: !InAny(p, []) && !Published(p, []) && !Overridden(p, [], limit)
  {}

  lemma NextService(services: seq<Service>, i: nat, limit: Limit)
    requires i < |services|
    ensures var sv := services[i];
            forall p :: Published(p, services[..i + 1]) <==> Published(p, services[..i]) || (sv.tcp && In(p, PortsOf(sv)))
    ensures var sv := services[i];
            forall p :: Overridden(p, services[..i + 1], limit)
                        <==> Overridden(p, services[..i], limit) || (Overrides(sv, limit) && In(p, PortsOf(sv)))
  {
    var next := services[..i + 1];
    assert next == services[..i] + [services[i]];
    assert services[i] in next && forall sv :: sv in services[..i] ==> sv in next;
  }

  // ---- names -----------------------------------------------------------

  function Digit(d: nat): char
    requires d < 10
  {
    '0' + d as char
  }

  function Decimal(n: nat): (s: string)
    ensures |s| > 0
  {
    if n < 10 then [Digit(n)] else Decimal(n / 10) + [Digit(n % 10)]
  }

  lemma {:induction false} DecimalInjective(m: nat, n: nat)
    requires Decimal(m) == Decimal(n)
    ensures m == n
  {
    var s := Decimal(m);
    assert s[|s| - 1] == Digit(m % 10) == Digit(n % 10);
    if m >= 10 && n >= 10 {
      assert s[..|s| - 1] == Decimal(m / 10) == Decimal(n / 10);
      DecimalInjective(m / 10, n / 10);
    }
  }

  /** The number a string of digits says. */
  function Value(s: string): int {
    if s == "" then 0 else 10 * Value(s[..|s| - 1]) + (s[|s| - 1] as int - '0' as int)
  }

  /** A number is printed in decimal, without leading zeros. */
  lemma {:induction false} DecimalSays(n: nat)
    ensures Value(Decimal(n)) == n && (n > 0 ==> Decimal(n)[0] != '0')
    ensures forall c :: c in Decimal(n) ==> '0' <= c <= '9'
  {
    if n >= 10 {
      DecimalSays(n / 10);
      assert Decimal(n)[..|Decimal(n)| - 1] == Decimal(n / 10);
    } else {
      assert Decimal(n)[..0] == "";
    }
  }

  function Suffixed(base: string, n: nat): string { base + "_" + Decimal(n) }

  lemma SuffixInjective(base: string, m: nat, n: nat)
    ensures Suffixed(base, m) == Suffixed(base, n) ==> m == n
    ensures Suffixed(base, m) != base
  {
    var k := |base| + 1;
    assert Suffixed(base, m)[k..] == Decimal(m) && Suffixed(base, n)[k..] == Decimal(n);
    if Suffixed(base, m) == Suffixed(base, n) {
      DecimalInjective(m, n);
    }
  }

  ghost predicate IsFirstFree(name: string, taken: set<string>, base: string, n: nat) {
    n >= 2 && name == Suffixed(base, n) && forall m: nat :: 2 <= m < n ==> Suffixed(base, m) in taken
  }

  /** Claims `base`, or `base` with the first number from 2 that makes it free. */
  method UniqueName(taken: set<string>, base: string) returns (name: string, after: set<string>)
    ensures name !in taken && after == taken + {name}
    ensures base !in taken ==> name == base
    ensures base in taken ==> exists n: nat :: IsFirstFree(name, taken, base, n)
  {
    name := base;
    var n: nat := 2;
    ghost var left := taken;
    while name in taken
      invariant n >= 2
      invariant name == if n == 2 then base else Suffixed(base, n - 1)
      invariant n > 2 ==> base in taken
      invariant forall m: nat :: 2 <= m < n - 1 ==> Suffixed(base, m) in taken
      invariant left <= taken
      invariant forall s :: s in taken && s !in left ==>
                  n > 2 && (s == base || exists m: nat :: 2 <= m < n - 1 && s == Suffixed(base, m))
      decreases |left|
    {
      ghost var prev: nat := n - 1;
      SuffixInjective(base, prev, prev);
      forall m: nat | 2 <= m < prev
        ensures Suffixed(base, m) != Suffixed(base, prev)
      {
        SuffixInjective(base, m, prev);
      }
      assert name in left;
      left := left - {name};
      name := Suffixed(base, n);
      n := n + 1;
    }
    after := taken + {name};
    assert n > 2 ==> IsFirstFree(name, taken, base, n - 1);
  }

  function FoldChar(c: char): char {
    if 'A' <= c <= 'Z' then c - 'A' + 'a'
    else if 'a' <= c <= 'z' || '0' <= c <= '9' then c
    else '_'
  }

  function Fold(prefix: string, name: string): string {
    prefix + seq(|name|, i requires 0 <= i < |name| => FoldChar(name[i]))
  }

  /** A row overriding a limit, with the sets its rules feed; "" where it overrides nothing. */
  datatype Override = Override(service: Service, rateSet: string, countSet: string)

  function Names(o: Override): seq<string> {
    (if o.rateSet == "" then [] else [o.rateSet]) + (if o.countSet == "" then [] else [o.countSet])
  }

  function AllNames(os: seq<Override>): seq<string> {
    if os == [] then [] else AllNames(os[..|os| - 1]) + Names(os[|os| - 1])
  }

  ghost predicate Distinct(s: seq<string>) { forall i, j :: 0 <= i < j < |s| ==> s[i] != s[j] }

  const RATE_PREFIX := "conn_rate_"
  const COUNT_PREFIX := "conn_count_"

  function Overriding(services: seq<Service>): seq<Service> {
    if services == [] then []
    else
      var last := services[|services| - 1];
      Overriding(services[..|services| - 1])
      + if last.tcp && (last.newConnsPerSec > 0 || last.maxConnsPerSource > 0) then [last] else []
  }

  /** Nothing but lower-case letters, digits and underscores. */
  ghost predicate Plain(s: string) {
    forall i :: 0 <= i < |s| ==> 'a' <= s[i] <= 'z' || '0' <= s[i] <= '9' || s[i] == '_'
  }

  ghost predicate NamedFor(o: Override) {
    && (if o.service.tcp && o.service.newConnsPerSec > 0 then RATE_PREFIX <= o.rateSet else o.rateSet == "")
    && (if o.service.tcp && o.service.maxConnsPerSource > 0 then COUNT_PREFIX <= o.countSet else o.countSet == "")
    && Plain(o.rateSet) && Plain(o.countSet)
  }

  function ServicesOf(os: seq<Override>): seq<Service> {
    seq(|os|, i requires 0 <= i < |os| => os[i].service)
  }

  /** One override for each row that needs one, every set with a name of its own: none twice, and
      none the name of a shared set. */
  method ConnOverrides(services: seq<Service>) returns (out: seq<Override>)
    ensures ServicesOf(out) == Overriding(services)
    ensures forall o :: o in out ==> NamedFor(o)
    ensures Distinct(AllNames(out))
    ensures forall s :: s in AllNames(out) ==> s != "conn_rate" && s != "conn_count" && Plain(s)
  {
    hide Plain, Distinct, Overrides, NamedFor, AllNames, Names, Overriding;
    out := [];
    NoNames();
    var taken: set<string> := {};
    var i := 0;
    while i < |services|
      invariant i <= |services| && ServicesOf(out) == Overriding(services[..i])
      invariant forall o :: o in out ==> NamedFor(o)
      invariant Distinct(AllNames(out)) && forall s :: s in AllNames(out) <==> s in taken
    {
      var sv := services[i];
      OverridingNext(services, i);
      if Overrides(sv, Rate) || Overrides(sv, Count) {
        var o;
        o, taken := NameOverride(sv, taken);
        AppendNames(out, o);
        DistinctConcat(AllNames(out), Names(o));
        assert ServicesOf(out + [o]) == ServicesOf(out) + [sv];
        out := out + [o];
      }
      i := i + 1;
    }
    assert services[..i] == services;
    NotShared(out);
  }

  method NameOverride(sv: Service, taken: set<string>) returns (o: Override, after: set<string>)
    ensures o.service == sv && NamedFor(o)
    ensures Distinct(Names(o)) && forall s :: s in Names(o) ==> s !in taken
    ensures forall s :: s in after <==> s in taken || s in Names(o)
  {
    var rateSet, countSet := "", "";
    after := taken;
    if Overrides(sv, Rate) {
      rateSet, after := UniqueName(after, Fold(RATE_PREFIX, sv.name));
      PrefixKept(RATE_PREFIX, sv.name, rateSet);
    }
    if Overrides(sv, Count) {
      countSet, after := UniqueName(after, Fold(COUNT_PREFIX, sv.name));
      PrefixKept(COUNT_PREFIX, sv.name, countSet);
    }
    o := Override(sv, rateSet, countSet);
  }

  lemma NoNames()
    ensures AllNames([]) == [] && Distinct([]) && Overriding([]) == []
  {}

  lemma DistinctConcat(a: seq<string>, b: seq<string>)
    requires Distinct(a) && Distinct(b) && forall s :: s in b ==> s !in a
    ensures Distinct(a + b)
  {
    forall i, j | 0 <= i < j < |a + b|
      ensures (a + b)[i] != (a + b)[j]
    {
      if i < |a| <= j {
        assert a[i] in a && b[j - |a|] in b;
      }
    }
  }

  lemma OverridingNext(services: seq<Service>, i: nat)
    requires i < |services|
    ensures Overriding(services[..i + 1]) == Overriding(services[..i])
              + if Overrides(services[i], Rate) || Overrides(services[i], Count) then [services[i]] else []
  {
    assert services[..i + 1][..i] == services[..i];
  }

  lemma PrefixKept(prefix: string, name: string, s: string)
    requires Plain(prefix)
    requires s == Fold(prefix, name) || exists n: nat, taken :: IsFirstFree(s, taken, Fold(prefix, name), n)
    ensures prefix <= s && Plain(s)
  {
    FoldPlain(prefix, name);
    if s != Fold(prefix, name) {
      var n: nat, taken :| IsFirstFree(s, taken, Fold(prefix, name), n);
      DecimalPlain(n);
    }
  }

  /** Folding keeps letters and digits, letters in lower case, and puts an underscore for anything else. */
  lemma FoldPlain(prefix: string, name: string)
    requires Plain(prefix)
    ensures var s := Fold(prefix, name);
            && Plain(s) && |s| == |prefix| + |name| && prefix <= s
            && forall i :: 0 <= i < |name| ==>
                 var c, f := name[i], s[|prefix| + i];
                 && ('a' <= c <= 'z' || '0' <= c <= '9' ==> f == c)
                 && ('A' <= c <= 'Z' ==> f as int == c as int + 32)
                 && (!('a' <= c <= 'z' || '0' <= c <= '9' || 'A' <= c <= 'Z') ==> f == '_')
  {}

  lemma {:induction false} DecimalPlain(n: nat)
    ensures Plain(Decimal(n))
  {
    if n >= 10 {
      DecimalPlain(n / 10);
    }
  }

  lemma AppendNames(out: seq<Override>, o: Override)
    ensures AllNames(out + [o]) == AllNames(out) + Names(o)
  {
    assert (out + [o])[..|out|] == out;
  }

  lemma {:induction false} NotShared(out: seq<Override>)
    requires forall o :: o in out ==> NamedFor(o)
    ensures forall s :: s in AllNames(out) ==> s != "conn_rate" && s != "conn_count" && Plain(s)
  {
    if out != [] {
      NotShared(out[..|out| - 1]);
      var o := out[|out| - 1];
      assert NamedFor(o);
      forall s | s in Names(o)
        ensures s != "conn_rate" && s != "conn_count" && Plain(s)
      {
        assert RATE_PREFIX <= s || COUNT_PREFIX <= s;
        assert s[5] == RATE_PREFIX[5] || s[5] == COUNT_PREFIX[5];
        assert RATE_PREFIX <= s ==> |s| >= 10 && s[5] == 'r';
        assert COUNT_PREFIX <= s ==> |s| >= 11 && s[5] == 'c';
        assert "conn_count"[5] == 'c';
      }
    }
  }
}
