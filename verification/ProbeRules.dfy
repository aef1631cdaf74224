/**
 The two policy rules behind every path's probes - a lookup into the path's own table and a
 refusal behind it - kept pinned at their priorities, and the route in that table.
 */
module ProbeRules {
  import opened PolicyRules

  const LOOKUP_BASE: int := 30000
  const DENY_BASE: int := 31000
  const BAND_SIZE: int := 100

  datatype Path = Path(id: int, table: int, mark: int, iface: int)

  predicate InBand(p: Path) { 0 < p.id < BAND_SIZE }

  predicate InDenyBand(pref: int) { DENY_BASE < pref < DENY_BASE + BAND_SIZE }

  function LookupRule(p: Path): Rule { Rule(Mark(p.mark), LOOKUP_BASE + p.id, Lookup(p.table)) }

  function DenyRule(p: Path): Rule { Rule(Mark(p.mark), DENY_BASE + p.id, Unreachable) }

  /** The path's lookups, at any priority. */
  predicate IsLookup(p: Path, r: Rule) { r.sel == Mark(p.mark) && r.action == Lookup(p.table) }

  /** This system's refusals: ownership is the priority band. */
  predicate IsDeny(r: Rule) { r.sel.Mark? && r.action.Unreachable? && InDenyBand(r.pref) }

  predicate IsDenyFor(p: Path, r: Rule) { IsDeny(r) && r.sel == Mark(p.mark) }

  predicate Touches(p: Path, r: Rule) { IsLookup(p, r) || IsDenyFor(p, r) }

  function Lookups(p: Path, rules: set<Rule>): set<Rule> { set r | r in rules && IsLookup(p, r) }

  function Denies(p: Path, rules: set<Rule>): set<Rule> { set r | r in rules && IsDenyFor(p, r) }

  // ---- pinning one rule ------------------------------------------------

  /** One moment while `want` replaces the `found` rules: nothing outside them changes, and some
      rule of the kind is there whenever one was before. */
  ghost predicate Moment(s: State, before: State, want: Rule, found: set<Rule>) {
    && s.defaults == before.defaults && s.hosts == before.hosts
    && before.rules - found <= s.rules <= before.rules + {want}
    && (s.rules == before.rules || want in s.rules)
  }

  /** The wanted rule in, then every other one found out; failing to add it is fatal, failing to
      delete is not. */
  method Pin(k: Kernel, want: Rule, found: set<Rule>, denied: set<Command>) returns (ok: bool)
    requires found <= k.state.rules && (want in k.state.rules ==> want in found)
    modifies k
    ensures Moment(k.state, old(k.state), want, found)
    ensures old(k.past) <= k.past
    ensures forall i :: |old(k.past)| <= i < |k.past| ==> Moment(k.past[i], old(k.state), want, found)
    ensures ok ==> want in k.state.rules
    ensures !ok ==> k.state == old(k.state) && AddRule(want) in denied
    ensures denied == {} ==> ok && k.state.rules == old(k.state.rules) - found + {want}
    ensures found == {want} ==> ok && k.issued == old(k.issued) && k.past == old(k.past) && k.state == old(k.state)
  {
    ghost var was, before := k.past, k.state;
    if want !in found {
      ok := k.Run(AddRule(want), denied);
      if !ok {
        return;
      }
    }
    ok := true;
    var todo := found - {want};
    while todo != {}
      invariant todo <= found - {want} && want in k.state.rules
      invariant was <= k.past && Moment(k.state, before, want, found)
      invariant forall i :: |was| <= i < |k.past| ==> Moment(k.past[i], before, want, found)
      invariant denied == {} ==> k.state.rules == before.rules - (found - {want} - todo) + {want}
      invariant found == {want} ==> k.issued == old(k.issued) && k.past == was && k.state == before
      decreases todo
    {
      var r :| r in todo;
      var _ := k.Run(DelRule(r), denied);
      todo := todo - {r};
    }
  }

  // ---- one path --------------------------------------------------------

  /** One moment while a path's rules are put right: nothing but them changes, and neither its
      lookups nor its refusals are ever all gone if there was one before. */
  ghost predicate PathMoment(s: State, before: State, p: Path) {
    && s.defaults == before.defaults && s.hosts == before.hosts
    && (forall r :: !Touches(p, r) ==> (r in s.rules <==> r in before.rules))
    && (Lookups(p, before.rules) != {} ==> Lookups(p, s.rules) != {})
    && (Denies(p, before.rules) != {} ==> Denies(p, s.rules) != {})
  }

  /** And every moment since `was` is one. */
  ghost predicate PathMoments(s: State, past: seq<State>, before: State, was: seq<State>, p: Path) {
    was <= past && PathMoment(s, before, p) && forall i :: |was| <= i < |past| ==> PathMoment(past[i], before, p)
  }

  function Pinned(p: Path, rules: set<Rule>): set<Rule> {
    (set r | r in rules && !Touches(p, r)) + {LookupRule(p), DenyRule(p)}
  }

  lemma LookupMoment(s: State, before: State, p: Path)
    requires Moment(s, before, LookupRule(p), Lookups(p, before.rules))
    ensures PathMoment(s, before, p)
    ensures Denies(p, s.rules) == Denies(p, before.rules)
  {
    forall r | r in before.rules && !IsLookup(p, r)
      ensures r in s.rules
    {
      assert r in before.rules - Lookups(p, before.rules);
    }
    assert IsLookup(p, LookupRule(p));
    assert Denies(p, s.rules) == Denies(p, before.rules);
    if s.rules != before.rules {
      assert LookupRule(p) in Lookups(p, s.rules);
    }
  }

  lemma DenyMoment(s: State, middle: State, before: State, p: Path)
    requires Moment(s, middle, DenyRule(p), Denies(p, middle.rules))
    requires PathMoment(middle, before, p) && InBand(p)
    ensures PathMoment(s, before, p)
    ensures Lookups(p, s.rules) == Lookups(p, middle.rules)
  {
    forall r | r in middle.rules && !IsDenyFor(p, r)
      ensures r in s.rules
    {
      assert r in middle.rules - Denies(p, middle.rules);
    }
    assert IsDenyFor(p, DenyRule(p));
    assert Lookups(p, s.rules) == Lookups(p, middle.rules);
    if s.rules != middle.rules {
      assert DenyRule(p) in Denies(p, s.rules);
    }
  }

  /** Both rules of one path. `all` is an earlier listing, still right about this mark's refusals. */
  method EnsureProbeRules(k: Kernel, p: Path, all: set<Rule>, denied: set<Command>) returns (ok: bool)
    requires InBand(p) && Denies(p, all) == Denies(p, k.state.rules)
    modifies k
    ensures PathMoments(k.state, k.past, old(k.state), old(k.past), p)
    ensures ok ==> LookupRule(p) in k.state.rules && DenyRule(p) in k.state.rules
    ensures SparesHost(k.state, old(k.state), [p])
    ensures forall i :: |old(k.past)| <= i < |k.past| ==> SparesHost(k.past[i], old(k.state), [p])
    ensures denied == {} ==> ok && k.state.rules == Pinned(p, old(k.state.rules))
    ensures Pinned(p, old(k.state.rules)) == old(k.state.rules) ==>
              ok && k.issued == old(k.issued) && k.past == old(k.past) && k.state == old(k.state)
  {
    hide SparesHost;
    ghost var before, was := k.state, k.past;
    assert IsLookup(p, LookupRule(p)) && IsDenyFor(p, DenyRule(p));
    PinnedHas(p, before.rules);
    ok := Pin(k, LookupRule(p), Lookups(p, k.state.rules), denied);
    ghost var middle, half := k.state, k.past;
    LookupMoment(middle, before, p);
    forall i | |was| <= i < |half|
      ensures PathMoment(half[i], before, p)
    {
      LookupMoment(half[i], before, p);
    }
    PathSpares(middle, half, before, was, p);
    if !ok {
      return;
    }
    ok := Pin(k, DenyRule(p), Denies(p, all), denied);
    DenyMoment(k.state, middle, before, p);
    forall i | |half| <= i < |k.past|
      ensures PathMoment(k.past[i], before, p)
    {
      DenyMoment(k.past[i], middle, before, p);
    }
    PathSpares(k.state, k.past, before, was, p);
    assert LookupRule(p) in Lookups(p, middle.rules);
    if denied == {} {
      PinnedIs(p, before.rules, middle.rules, k.state.rules);
    }
  }

  lemma PinnedIs(p: Path, before: set<Rule>, middle: set<Rule>, after: set<Rule>)
    requires InBand(p) && middle == before - Lookups(p, before) + {LookupRule(p)}
    requires after == middle - Denies(p, middle) + {DenyRule(p)}
    ensures after == Pinned(p, before)
  {
    forall r
      ensures r in after <==> r in Pinned(p, before)
    {
      assert IsLookup(p, r) ==> !IsDenyFor(p, r);
    }
  }

  lemma PinnedHas(p: Path, rules: set<Rule>)
    requires InBand(p)
    ensures Pinned(p, rules) == rules ==> Lookups(p, rules) == {LookupRule(p)} && Denies(p, rules) == {DenyRule(p)}
    ensures LookupRule(p) in rules ==> LookupRule(p) in Lookups(p, rules)
    ensures DenyRule(p) in rules ==> DenyRule(p) in Denies(p, rules)
  {
    assert IsLookup(p, LookupRule(p)) && IsDenyFor(p, DenyRule(p));
    if Pinned(p, rules) == rules {
      forall r | r in rules
        ensures Touches(p, r) ==> r == LookupRule(p) || r == DenyRule(p)
      {
        assert r in Pinned(p, rules);
      }
      assert LookupRule(p) in Pinned(p, rules) && DenyRule(p) in Pinned(p, rules);
    }
  }

  // ---- every path ------------------------------------------------------

  /** Path ids fit the bands, and no two paths share an id, a mark or a table. */
  ghost predicate WellFormed(paths: seq<Path>) {
    && (forall p :: p in paths ==> InBand(p))
    && (forall i, j :: 0 <= i < j < |paths| ==>
          paths[i].mark != paths[j].mark && paths[i].id != paths[j].id && paths[i].table != paths[j].table)
  }

  predicate Configured(paths: seq<Path>, mark: int) { exists p :: p in paths && p.mark == mark }

  /** A refusal of this system's whose mark no path carries any more. */
  predicate IsStale(paths: seq<Path>, r: Rule) { IsDeny(r) && !Configured(paths, r.sel.mark) }

  function Stale(paths: seq<Path>, rules: set<Rule>): set<Rule> { set r | r in rules && IsStale(paths, r) }

  predicate IsWanted(paths: seq<Path>, r: Rule) { exists p :: p in paths && (r == LookupRule(p) || r == DenyRule(p)) }

  predicate AnyTouches(paths: seq<Path>, r: Rule) { exists p :: p in paths && Touches(p, r) }

  /** What one pass is for: exactly the two pinned rules of every path, no stale refusal, and every
      other rule as it was. */
  ghost function Target(paths: seq<Path>, rules: set<Rule>): set<Rule> {
    (set r | r in rules && !AnyTouches(paths, r) && !IsStale(paths, r)) + Wanted(paths)
  }

  function Wanted(paths: seq<Path>): set<Rule> {
    (set p | p in paths :: LookupRule(p)) + (set p | p in paths :: DenyRule(p))
  }

  lemma WantedIs(paths: seq<Path>)
    ensures forall r :: r in Wanted(paths) <==> IsWanted(paths, r)
  {}

  /** A table's route is as it was, or is now the route of the path whose table it is. */
  ghost predicate RouteKept(s: State, before: State, paths: seq<Path>, t: int) {
    || ((t in s.hosts <==> t in before.hosts) && (t in s.hosts ==> s.hosts[t] == before.hosts[t]))
    || exists p :: p in paths && p.table == t && t in s.hosts && s.hosts[t] == p.iface
  }

  /** One moment of a whole pass. */
  ghost predicate PassMoment(s: State, before: State, paths: seq<Path>) {
    && s.defaults == before.defaults && (forall t :: RouteKept(s, before, paths, t))
    && (forall r :: !IsStale(paths, r) && !AnyTouches(paths, r) ==> (r in s.rules <==> r in before.rules))
    && (forall p :: p in paths && Lookups(p, before.rules) != {} ==> Lookups(p, s.rules) != {})
    && (forall p :: p in paths && Denies(p, before.rules) != {} ==> Denies(p, s.rules) != {})
  }

  lemma OthersUntouched(p: Path, q: Path, s: State, middle: State)
    requires p.mark != q.mark && PathMoment(s, middle, p)
    ensures Lookups(q, s.rules) == Lookups(q, middle.rules) && Denies(q, s.rules) == Denies(q, middle.rules)
  {
    forall r
      ensures Touches(q, r) ==> (r in s.rules <==> r in middle.rules)
    {
      assert Touches(q, r) ==> !Touches(p, r);
    }
    assert Lookups(q, s.rules) == Lookups(q, middle.rules);
    assert Denies(q, s.rules) == Denies(q, middle.rules);
  }

  lemma PassThroughPath(s: State, middle: State, before: State, paths: seq<Path>, i: nat)
    requires WellFormed(paths) && i < |paths|
    requires PassMoment(middle, before, paths) && PathMoment(s, middle, paths[i])
    ensures PassMoment(s, before, paths)
  {
    var p := paths[i];
    assert forall t :: RouteKept(middle, before, paths, t) ==> RouteKept(s, before, paths, t);
    hide RouteKept;
    forall r | !IsStale(paths, r) && !AnyTouches(paths, r)
      ensures r in s.rules <==> r in before.rules
    {
      assert p in paths && !Touches(p, r);
    }
    forall q | q in paths
      ensures Lookups(q, before.rules) != {} ==> Lookups(q, s.rules) != {}
      ensures Denies(q, before.rules) != {} ==> Denies(q, s.rules) != {}
    {
      if q != p {
        OthersUntouched(p, q, s, middle);
      }
    }
  }

  lemma PassThroughSweep(s: State, middle: State, before: State, paths: seq<Path>, r: Rule)
    requires PassMoment(middle, before, paths) && IsStale(paths, r)
    requires s == middle || s == middle.(rules := middle.rules - {r})
    ensures PassMoment(s, before, paths)
  {
    assert forall t :: RouteKept(middle, before, paths, t) ==> RouteKept(s, before, paths, t);
    hide RouteKept;
    forall q | q in paths
      ensures Lookups(q, s.rules) == Lookups(q, middle.rules) && Denies(q, s.rules) == Denies(q, middle.rules)
    {
      assert Configured(paths, q.mark);
      assert !Touches(q, r);
      assert Lookups(q, s.rules) == Lookups(q, middle.rules);
      assert Denies(q, s.rules) == Denies(q, middle.rules);
    }
  }

  lemma PassThroughRoute(s: State, middle: State, before: State, paths: seq<Path>, p: Path)
    requires PassMoment(middle, before, paths) && p in paths
    requires s == middle || s == middle.(hosts := middle.hosts[p.table := p.iface])
    ensures PassMoment(s, before, paths)
  {
    forall t
      ensures RouteKept(s, before, paths, t)
    {
      assert RouteKept(middle, before, paths, t);
    }
    hide RouteKept, IsStale, AnyTouches;
  }

  /** The rules once the first `n` paths are done. */
  ghost function Done(paths: seq<Path>, n: nat, rules: set<Rule>): set<Rule>
    requires n <= |paths|
  {
    if n == 0 then rules else Pinned(paths[n - 1], Done(paths, n - 1, rules))
  }

  lemma {:induction false} DoneIs(paths: seq<Path>, n: nat, rules: set<Rule>, r: Rule)
    requires WellFormed(paths) && n <= |paths|
    ensures r in Done(paths, n, rules) <==> IsWanted(paths[..n], r) || (r in rules && !AnyTouches(paths[..n], r))
  {
    hide IsWanted, AnyTouches, WellFormed, Done;
    DoneNext(paths, n, rules);
    if n == 0 {
      NoPaths(r);
    } else {
      DoneIs(paths, n - 1, rules, r);
      OneMore(paths, n, r);
    }
  }

  lemma NoPaths(r: Rule)
    ensures !IsWanted([], r) && !AnyTouches([], r)
  {}

  lemma OneMore(paths: seq<Path>, n: nat, r: Rule)
    requires WellFormed(paths) && 0 < n <= |paths|
    ensures var p := paths[n - 1];
            && (IsWanted(paths[..n], r) <==> IsWanted(paths[..n - 1], r) || r == LookupRule(p) || r == DenyRule(p))
            && (AnyTouches(paths[..n], r) <==> AnyTouches(paths[..n - 1], r) || Touches(p, r))
            && (IsWanted(paths[..n - 1], r) ==> !Touches(p, r))
  {
    var p := paths[n - 1];
    assert paths[..n] == paths[..n - 1] + [p];
    hide IsLookup, IsDenyFor;
    if IsWanted(paths[..n - 1], r) {
      var q :| q in paths[..n - 1] && (r == LookupRule(q) || r == DenyRule(q));
      var j :| 0 <= j < n - 1 && paths[j] == q;
      assert q.mark != p.mark;
      NotTouched(p, r);
    }
  }

  lemma NotTouched(p: Path, r: Rule)
    requires r.sel != Mark(p.mark)
    ensures !Touches(p, r)
  {}

  lemma TargetIs(paths: seq<Path>, rules: set<Rule>)
    requires WellFormed(paths)
    ensures Done(paths, |paths|, rules) - Stale(paths, rules) == Target(paths, rules)
  {
    WantedIs(paths);
    forall r
      ensures r in Done(paths, |paths|, rules) - Stale(paths, rules) <==> r in Target(paths, rules)
    {
      DoneIs(paths, |paths|, rules, r);
      assert paths[..|paths|] == paths;
      if IsWanted(paths, r) {
        var p :| p in paths && (r == LookupRule(p) || r == DenyRule(p));
        assert Configured(paths, p.mark) && !IsStale(paths, r);
      }
    }
  }

  lemma InTarget(paths: seq<Path>, rules: set<Rule>, r: Rule)
    ensures r in Target(paths, rules) <==>
            IsWanted(paths, r) || (r in rules && !AnyTouches(paths, r) && !IsStale(paths, r))
  {
    hide AnyTouches, IsStale;
    WantedIs(paths);
  }

  lemma WantedStays(paths: seq<Path>, r: Rule)
    requires IsWanted(paths, r)
    ensures !IsStale(paths, r)
  {
    WantedNotStale(paths);
  }

  lemma TargetPinned(paths: seq<Path>, rules: set<Rule>, p: Path)
    requires WellFormed(paths) && Target(paths, rules) == rules && p in paths
    ensures Pinned(p, rules) == rules
  {
    hide Target, Touches, IsStale, WellFormed;
    InTarget(paths, rules, LookupRule(p));
    InTarget(paths, rules, DenyRule(p));
    forall r | r in rules && Touches(p, r)
      ensures r == LookupRule(p) || r == DenyRule(p)
    {
      InTarget(paths, rules, r);
      var q :| q in paths && (r == LookupRule(q) || r == DenyRule(q));
      TouchesMark(p, r);
      SameMark(paths, p, q);
    }
  }

  lemma TouchesMark(p: Path, r: Rule)
    requires Touches(p, r)
    ensures r.sel == Mark(p.mark)
  {}

  /** A table already right is left wholly alone. */
  lemma TargetFixed(paths: seq<Path>, rules: set<Rule>)
    requires WellFormed(paths) && Target(paths, rules) == rules
    ensures Stale(paths, rules) == {}
    ensures Settled(paths, rules)
  {
    hide Target, IsStale, AnyTouches, IsWanted, WellFormed, Pinned;
    forall r | r in rules
      ensures !IsStale(paths, r)
    {
      InTarget(paths, rules, r);
      if IsWanted(paths, r) {
        WantedStays(paths, r);
      }
    }
    forall p | p in paths
      ensures Pinned(p, rules) == rules
    {
      TargetPinned(paths, rules, p);
    }
  }

  lemma SameMark(paths: seq<Path>, p: Path, q: Path)
    requires WellFormed(paths) && p in paths && q in paths && p.mark == q.mark
    ensures p == q
  {
    var i :| 0 <= i < |paths| && paths[i] == p;
    var j :| 0 <= j < |paths| && paths[j] == q;
  }

  /** A pass that met no refusal leaves nothing for the next one to do. */
  lemma SecondPassIdle(paths: seq<Path>, rules: set<Rule>)
    requires WellFormed(paths)
    ensures Target(paths, Target(paths, rules)) == Target(paths, rules)
  {
    WantedIs(paths);
    forall r | r in Wanted(paths)
      ensures AnyTouches(paths, r) && !IsStale(paths, r)
    {
      var p :| p in paths && (r == LookupRule(p) || r == DenyRule(p));
      assert InBand(p) && IsLookup(p, LookupRule(p)) && IsDenyFor(p, DenyRule(p));
      assert Touches(p, r) && Configured(paths, p.mark);
    }
  }

  /** Exactly one lookup in its own table and one refusal in the band are left for each path. */
  lemma ExactlyOneEach(paths: seq<Path>, rules: set<Rule>, p: Path)
    requires WellFormed(paths) && p in paths
    ensures Lookups(p, Target(paths, rules)) == {LookupRule(p)}
    ensures Denies(p, Target(paths, rules)) == {DenyRule(p)}
    ensures forall r :: r in Target(paths, rules) && IsDeny(r) ==> Configured(paths, r.sel.mark)
  {
    SecondPassIdle(paths, rules);
    TargetFixed(paths, Target(paths, rules));
    assert Pinned(p, Target(paths, rules)) == Target(paths, rules);
    PinnedHas(p, Target(paths, rules));
    forall r | r in Target(paths, rules) && IsDeny(r)
      ensures Configured(paths, r.sel.mark)
    {
      assert r !in Stale(paths, Target(paths, rules));
    }
  }

  /** The target, rule by rule: a path's lookup into its table at 30000 and its id, its refusal at 31000
      and its id, neither at any other priority, the lookup ahead of every path's refusal; no refusal in
      the band for a mark no path carries; and every other rule exactly as it was. */
  lemma TargetExact(paths: seq<Path>, rules: set<Rule>, r: Rule)
    requires WellFormed(paths)
    ensures forall p :: p in paths && r.sel == Mark(p.mark) && r.action == Lookup(p.table) ==>
              (r in Target(paths, rules) <==> r.pref == 30000 + p.id)
    ensures forall p :: p in paths && r.sel == Mark(p.mark) && r.action == Unreachable && 31000 < r.pref < 31100 ==>
              (r in Target(paths, rules) <==> r.pref == 31000 + p.id)
    ensures forall p, q :: p in paths && q in paths ==> 30000 < 30000 + p.id < 31000 < 31000 + q.id < 31100
    ensures (forall p :: p in paths ==> r.sel != Mark(p.mark)) ==>
              r.sel.Mark? && r.action == Unreachable && 31000 < r.pref < 31100 ==> r !in Target(paths, rules)
    ensures Others(paths, r) ==> (r in Target(paths, rules) <==> r in rules)
  {
    hide Target, WellFormed;
    InTarget(paths, rules, r);
    BandsApart(paths);
    OthersAre(paths, r);
    forall p | p in paths && r.sel == Mark(p.mark) && Touches(p, r)
      ensures r in Target(paths, rules) <==> r == LookupRule(p) || r == DenyRule(p)
    {
      forall q | q in paths && (r == LookupRule(q) || r == DenyRule(q))
        ensures q == p
      {
        SameMark(paths, p, q);
      }
    }
    WantedConfigured(paths, r);
  }

  /** A rule no pass may touch: not of a mark, a lookup that is no path's own, or a refusal outside the
      band. */
  ghost predicate Others(paths: seq<Path>, r: Rule) {
    || r.sel.From?
    || (r.action.Lookup? && forall p :: p in paths ==> r.sel != Mark(p.mark) || r.action.table != p.table)
    || (r.action.Unreachable? && !(31000 < r.pref < 31100))
  }

  lemma BandsApart(paths: seq<Path>)
    requires WellFormed(paths)
    ensures forall p, q :: p in paths && q in paths ==> 30000 < 30000 + p.id < 31000 < 31000 + q.id < 31100
    ensures forall p :: p in paths ==> Touches(p, LookupRule(p)) && Touches(p, DenyRule(p))
  {
    forall p | p in paths
      ensures InBand(p)
    {
    }
  }

  lemma OthersAre(paths: seq<Path>, r: Rule)
    ensures Others(paths, r) ==> !AnyTouches(paths, r) && !IsStale(paths, r)
  {}

  lemma WantedConfigured(paths: seq<Path>, r: Rule)
    ensures IsWanted(paths, r) && r.sel.Mark? ==> Configured(paths, r.sel.mark)
  {}

  /** One moment of a pass, as a host sees it: its own rules and default routes stand, a route to the
      backend changes only in a path's own table and to that path's interface, and a mark that had its
      lookup, or a refusal in the band, still has one. */
  ghost predicate SparesHost(s: State, before: State, paths: seq<Path>) {
    && (forall r :: Others(paths, r) ==> (r in s.rules <==> r in before.rules))
    && s.defaults == before.defaults
    && (forall t :: || ((t in s.hosts <==> t in before.hosts) && (t in s.hosts ==> s.hosts[t] == before.hosts[t]))
                    || (t in s.hosts && exists p :: p in paths && p.table == t && s.hosts[t] == p.iface))
    && (forall p, r :: p in paths && r in before.rules && r.sel == Mark(p.mark) && r.action == Lookup(p.table) ==>
          exists q :: q in s.rules && q.sel == Mark(p.mark) && q.action == Lookup(p.table))
    && (forall p, r :: p in paths && r in before.rules && r.sel == Mark(p.mark) && r.action == Unreachable
                       && 31000 < r.pref < 31100 ==>
          exists q :: q in s.rules && q.sel == Mark(p.mark) && q.action == Unreachable && 31000 < q.pref < 31100)
  }

  lemma MomentSpares(s: State, before: State, paths: seq<Path>)
    requires PassMoment(s, before, paths)
    ensures SparesHost(s, before, paths)
  {
    forall r | Others(paths, r)
      ensures r in s.rules <==> r in before.rules
    {
      OthersAre(paths, r);
    }
    hide Others, AnyTouches, IsStale;
    forall t
      ensures ((t in s.hosts <==> t in before.hosts) && (t in s.hosts ==> s.hosts[t] == before.hosts[t]))
              || (t in s.hosts && exists p :: p in paths && p.table == t && s.hosts[t] == p.iface)
    {
      assert RouteKept(s, before, paths, t);
    }
    forall p, r | p in paths && r in before.rules && r.sel == Mark(p.mark) && r.action == Lookup(p.table)
      ensures exists q :: q in s.rules && q.sel == Mark(p.mark) && q.action == Lookup(p.table)
    {
      assert r in Lookups(p, before.rules);
      var q :| q in Lookups(p, s.rules);
    }
    forall p, r | p in paths && r in before.rules && r.sel == Mark(p.mark) && r.action == Unreachable && 31000 < r.pref < 31100
      ensures exists q :: q in s.rules && q.sel == Mark(p.mark) && q.action == Unreachable && 31000 < q.pref < 31100
    {
      assert r in Denies(p, before.rules);
      var q :| q in Denies(p, s.rules);
    }
  }

  lemma MomentsSpare(s: State, past: seq<State>, before: State, was: seq<State>, paths: seq<Path>)
    requires AllMoments(s, past, before, was, paths)
    ensures was <= past && SparesHost(s, before, paths)
    ensures forall j :: |was| <= j < |past| ==> SparesHost(past[j], before, paths)
  {
    hide PassMoment, SparesHost;
    MomentSpares(s, before, paths);
    forall j | |was| <= j < |past|
      ensures SparesHost(past[j], before, paths)
    {
      MomentSpares(past[j], before, paths);
    }
  }

  lemma PathSpares(s: State, past: seq<State>, before: State, was: seq<State>, p: Path)
    requires PathMoments(s, past, before, was, p) && InBand(p)
    ensures was <= past && SparesHost(s, before, [p])
    ensures forall j :: |was| <= j < |past| ==> SparesHost(past[j], before, [p])
  {
    hide PathMoments, AllMoments, SparesHost, DoneSoFar, RoutesDone, InBand;
    PassStarts(before, was, [p], {});
    KeepsPass([p], 0, before, before, was, was, s, past);
    MomentsSpare(s, past, before, was, [p]);
  }

  /** Nothing but routes has been put since. */
  ghost predicate OnlyRoutes(issued: seq<Command>, before: seq<Command>) {
    before <= issued && forall j :: |before| <= j < |issued| ==> issued[j].PutHost?
  }

  /** One pass over every path, then the sweep. The refusals are read from one listing taken at the
      start, without which nothing is done; a path whose own table cannot be listed is passed over, one
      whose interface is not there gets its rules but no route. Either is a problem, as is a route refused;
      a rule refused ends the pass. `ok` says there was no problem. */
  method EnsureProbeRoutes(k: Kernel, paths: seq<Path>, listed: bool, unreadable: set<int>, present: set<int>,
                           denied: set<Command>) returns (fatal: bool, ok: bool)
    requires WellFormed(paths)
    modifies k
    ensures !listed ==> fatal && k.state == old(k.state) && k.issued == old(k.issued)
    ensures old(k.past) <= k.past && SparesHost(k.state, old(k.state), paths)
    ensures forall i :: |old(k.past)| <= i < |k.past| ==> SparesHost(k.past[i], old(k.state), paths)
    ensures !fatal ==> forall p :: p in paths && p.table !in unreadable ==>
                         && Rule(Mark(p.mark), 30000 + p.id, Lookup(p.table)) in k.state.rules
                         && Rule(Mark(p.mark), 31000 + p.id, Unreachable) in k.state.rules
    ensures ok ==> !fatal && forall p :: p in paths ==>
                     p.table !in unreadable && p.table in k.state.hosts && k.state.hosts[p.table] == p.iface
    ensures listed && denied == {} && unreadable == {} ==> !fatal && k.state.rules == Target(paths, old(k.state.rules))
    ensures listed && denied == {} && unreadable == {} && (forall p :: p in paths ==> p.iface in present) ==> ok
    ensures listed && Target(paths, old(k.state.rules)) == old(k.state.rules) ==>
              !fatal && k.state.rules == old(k.state.rules) && OnlyRoutes(k.issued, old(k.issued))
  {
    hide Target, WellFormed, AllMoments, SparesHost, Pinned, Done, Stale, IsStale, DoneSoFar, Settled, RoutesDone,
         OnlyRoutes;
    ghost var before, was := k.state, k.past;
    PassStarts(before, was, paths, unreadable);
    MomentsSpare(before, was, before, was, paths);
    if !listed {
      return true, false;
    }
    var all := k.state.rules;
    if Target(paths, all) == all {
      TargetFixed(paths, all);
    }
    TargetIs(paths, all);
    fatal, ok := PinAll(k, paths, all, unreadable, present, denied);
    MomentsSpare(k.state, k.past, before, was, paths);
    if fatal {
      return;
    }
    ghost var pinned := k.state;
    Sweep(k, paths, all, denied, before, was);
    MomentsSpare(k.state, k.past, before, was, paths);
    AllDone(pinned, k.state, paths, all, unreadable);
    if ok {
      AllRouted(pinned, k.state, paths, unreadable);
    }
  }

  /** The paths in turn; a rule that cannot be added ends the pass. */
  method PinAll(k: Kernel, paths: seq<Path>, all: set<Rule>, unreadable: set<int>, present: set<int>, denied: set<Command>)
    returns (fatal: bool, ok: bool)
    requires WellFormed(paths) && all == k.state.rules
    modifies k
    ensures AllMoments(k.state, k.past, old(k.state), old(k.past), paths)
    ensures !fatal ==> DoneSoFar(k.state, paths, |paths|, all, unreadable)
    ensures ok ==> !fatal && RoutesDone(k.state, paths, |paths|, unreadable)
    ensures denied == {} && unreadable == {} ==> !fatal && k.state.rules == Done(paths, |paths|, all)
    ensures denied == {} && unreadable == {} && (forall p :: p in paths ==> p.iface in present) ==> ok
    ensures Settled(paths, all) ==>
              !fatal && k.state.rules == old(k.state.rules) && OnlyRoutes(k.issued, old(k.issued))
  {
    hide WellFormed, AllMoments, DoneSoFar, Done, Settled, Pinned, PassMoment, RoutesDone, OnlyRoutes;
    ghost var before, was, first := k.state, k.past, k.issued;
    PassStarts(before, was, paths, unreadable);
    DoneNext(paths, 0, all);
    ghost var free := denied == {} && unreadable == {};
    ghost var whole := free && forall p :: p in paths ==> p.iface in present;
    ghost var settled := Settled(paths, all);
    NoneIssued(first);
    fatal, ok := false, true;
    var i := 0;
    while i < |paths|
      invariant i <= |paths| && !fatal && AllMoments(k.state, k.past, before, was, paths)
      invariant DoneSoFar(k.state, paths, i, all, unreadable)
      invariant ok ==> RoutesDone(k.state, paths, i, unreadable)
      invariant free ==> k.state.rules == Done(paths, i, all)
      invariant whole ==> ok
      invariant settled ==> k.state.rules == all && OnlyRoutes(k.issued, first)
    {
      DoneNext(paths, i + 1, all);
      SettledAt(paths, i, all);
      ghost var middle, sofar := k.state, k.issued;
      var done;
      fatal, done := PinOne(k, paths, i, all, unreadable, present, denied, before, was, free);
      if fatal {
        return true, false;
      }
      if ok && done {
        OneMoreRouted(middle, k.state, paths, i, unreadable);
      }
      if settled {
        OnlyRoutesStill(first, sofar, k.issued);
      }
      assert whole ==> paths[i] in paths;
      ok := ok && done;
      i := i + 1;
    }
  }

  /** One path of the pass: its rules, and its route if its interface is there. */
  method PinOne(k: Kernel, paths: seq<Path>, i: nat, all: set<Rule>, unreadable: set<int>, present: set<int>,
                denied: set<Command>, ghost before: State, ghost was: seq<State>, ghost free: bool) returns (fatal: bool, done: bool)
    requires WellFormed(paths) && i < |paths| && (free ==> denied == {} && unreadable == {})
    requires AllMoments(k.state, k.past, before, was, paths) && DoneSoFar(k.state, paths, i, all, unreadable)
    modifies k
    ensures AllMoments(k.state, k.past, before, was, paths)
    ensures !fatal ==> DoneSoFar(k.state, paths, i + 1, all, unreadable)
    ensures k.state.hosts == if done then old(k.state.hosts)[paths[i].table := paths[i].iface] else old(k.state.hosts)
    ensures done ==> !fatal && paths[i].table !in unreadable
    ensures free ==> !fatal && k.state.rules == Pinned(paths[i], old(k.state.rules))
    ensures free && paths[i].iface in present ==> done
    ensures Pinned(paths[i], old(k.state.rules)) == old(k.state.rules) ==>
              !fatal && k.state.rules == old(k.state.rules) && OnlyRoutes(k.issued, old(k.issued))
  {
    hide WellFormed, AllMoments, PathMoments, Pinned, Denies, LookupRule, DenyRule, DoneSoFar, InBand;
    var p := paths[i];
    if p.table in unreadable {
      SkipsOne(k.state, paths, i, all, unreadable);
      return false, false;
    }
    ghost var middle, half := k.state, k.past;
    DoneGives(middle, paths, i, all, unreadable);
    var ok := EnsureProbeRules(k, p, all, denied);
    SameHosts(k.state, k.past, middle, half, p);
    KeepsPass(paths, i, middle, before, was, half, k.state, k.past);
    if !ok {
      return true, false;
    }
    KeepsOthers(paths, i, middle, half, k.state, k.past, all, unreadable);
    if p.iface !in present {
      return false, false;
    }
    fatal := false;
    ghost var ruled, past := k.state, k.past;
    done := k.Run(PutHost(p.table, p.iface), denied);
    KeepsRoute(paths, p, ruled, past, before, was, k.state);
    SameRulesDone(ruled, k.state, paths, i + 1, all, unreadable);
  }

  lemma SameHosts(s: State, past: seq<State>, before: State, was: seq<State>, p: Path)
    requires PathMoments(s, past, before, was, p)
    ensures s.hosts == before.hosts
  {}

  lemma KeepsRoute(paths: seq<Path>, p: Path, middle: State, half: seq<State>, before: State, was: seq<State>, after: State)
    requires p in paths && AllMoments(middle, half, before, was, paths)
    requires after == middle || after == middle.(hosts := middle.hosts[p.table := p.iface])
    ensures AllMoments(after, half + [after], before, was, paths)
  {
    hide PassMoment;
    PassThroughRoute(after, middle, before, paths, p);
  }

  lemma SameRulesDone(s: State, t: State, paths: seq<Path>, i: nat, all: set<Rule>, unreadable: set<int>)
    requires i <= |paths| && DoneSoFar(s, paths, i, all, unreadable) && t.rules == s.rules
    ensures DoneSoFar(t, paths, i, all, unreadable)
  {}

  /** The first `i` paths could be listed and have their routes. */
  ghost predicate RoutesDone(s: State, paths: seq<Path>, i: nat, unreadable: set<int>)
    requires i <= |paths|
  {
    forall j :: 0 <= j < i ==>
      paths[j].table !in unreadable && paths[j].table in s.hosts && s.hosts[paths[j].table] == paths[j].iface
  }

  lemma OneMoreRouted(s: State, t: State, paths: seq<Path>, i: nat, unreadable: set<int>)
    requires WellFormed(paths) && i < |paths| && RoutesDone(s, paths, i, unreadable) && paths[i].table !in unreadable
    requires t.hosts == s.hosts[paths[i].table := paths[i].iface]
    ensures RoutesDone(t, paths, i + 1, unreadable)
  {
    hide InBand;
  }

  lemma AllRouted(s: State, t: State, paths: seq<Path>, unreadable: set<int>)
    requires RoutesDone(s, paths, |paths|, unreadable) && t.hosts == s.hosts
    ensures forall p :: p in paths ==> p.table !in unreadable && p.table in t.hosts && t.hosts[p.table] == p.iface
  {
    forall p | p in paths
      ensures p.table !in unreadable && p.table in t.hosts && t.hosts[p.table] == p.iface
    {
      var j :| 0 <= j < |paths| && paths[j] == p;
    }
  }

  lemma NoneIssued(issued: seq<Command>)
    ensures OnlyRoutes(issued, issued)
  {}

  lemma OnlyRoutesStill(a: seq<Command>, b: seq<Command>, c: seq<Command>)
    requires OnlyRoutes(b, a) && OnlyRoutes(c, b)
    ensures OnlyRoutes(c, a)
  {
    forall j | |a| <= j < |c|
      ensures c[j].PutHost?
    {
      if j < |b| {
        assert c[j] == b[j];
      }
    }
  }

  ghost predicate Settled(paths: seq<Path>, rules: set<Rule>) { forall p :: p in paths ==> Pinned(p, rules) == rules }

  lemma SettledAt(paths: seq<Path>, i: nat, rules: set<Rule>)
    requires i < |paths|
    ensures Settled(paths, rules) ==> Pinned(paths[i], rules) == rules
  {
    assert paths[i] in paths;
  }

  lemma DoneNext(paths: seq<Path>, n: nat, rules: set<Rule>)
    requires n <= |paths|
    ensures Done(paths, n, rules) == if n == 0 then rules else Pinned(paths[n - 1], Done(paths, n - 1, rules))
  {
    hide Pinned;
  }

  lemma AllDone(s: State, swept: State, paths: seq<Path>, all: set<Rule>, unreadable: set<int>)
    requires DoneSoFar(s, paths, |paths|, all, unreadable)
    requires forall r :: !IsStale(paths, r) ==> (r in swept.rules <==> r in s.rules)
    ensures forall p :: p in paths && p.table !in unreadable ==> LookupRule(p) in swept.rules && DenyRule(p) in swept.rules
  {
    WantedNotStale(paths);
    hide IsStale, LookupRule, DenyRule, Denies;
    forall p | p in paths && p.table !in unreadable
      ensures LookupRule(p) in swept.rules && DenyRule(p) in swept.rules
    {
      var j :| 0 <= j < |paths| && paths[j] == p;
    }
  }

  /** Every moment since `was` kept what a pass must keep. */
  ghost predicate AllMoments(s: State, past: seq<State>, before: State, was: seq<State>, paths: seq<Path>) {
    was <= past && PassMoment(s, before, paths) && forall j :: |was| <= j < |past| ==> PassMoment(past[j], before, paths)
  }

  /** The first `i` paths have their rules, and the listing is still right about the others. */
  ghost predicate DoneSoFar(s: State, paths: seq<Path>, i: nat, all: set<Rule>, unreadable: set<int>)
    requires i <= |paths|
  {
    && (forall j :: i <= j < |paths| ==> Denies(paths[j], s.rules) == Denies(paths[j], all))
    && forall j :: 0 <= j < i && paths[j].table !in unreadable ==>
         LookupRule(paths[j]) in s.rules && DenyRule(paths[j]) in s.rules
  }

  lemma DoneGives(s: State, paths: seq<Path>, i: nat, all: set<Rule>, unreadable: set<int>)
    requires WellFormed(paths) && i < |paths| && DoneSoFar(s, paths, i, all, unreadable)
    ensures paths[i] in paths && InBand(paths[i]) && Denies(paths[i], all) == Denies(paths[i], s.rules)
  {}

  lemma SkipsOne(s: State, paths: seq<Path>, i: nat, all: set<Rule>, unreadable: set<int>)
    requires i < |paths| && DoneSoFar(s, paths, i, all, unreadable) && paths[i].table in unreadable
    ensures DoneSoFar(s, paths, i + 1, all, unreadable)
  {}

  lemma PassStarts(s: State, was: seq<State>, paths: seq<Path>, unreadable: set<int>)
    ensures AllMoments(s, was, s, was, paths) && DoneSoFar(s, paths, 0, s.rules, unreadable)
    ensures RoutesDone(s, paths, 0, unreadable)
  {}

  lemma WantedNotStale(paths: seq<Path>)
    ensures forall p :: p in paths ==> !IsStale(paths, LookupRule(p)) && !IsStale(paths, DenyRule(p))
  {
    forall p | p in paths
      ensures !IsStale(paths, LookupRule(p)) && !IsStale(paths, DenyRule(p))
    {
      assert Configured(paths, p.mark);
    }
  }

  lemma KeepsPass(paths: seq<Path>, i: nat, middle: State, before: State, was: seq<State>,
                  half: seq<State>, after: State, past: seq<State>)
    requires WellFormed(paths) && i < |paths| && AllMoments(middle, half, before, was, paths)
    requires PathMoments(after, past, middle, half, paths[i])
    ensures AllMoments(after, past, before, was, paths)
  {
    hide PassMoment, PathMoment, WellFormed;
    PassThroughPath(after, middle, before, paths, i);
    forall j | |was| <= j < |past|
      ensures PassMoment(past[j], before, paths)
    {
      if j < |half| {
        assert past[j] == half[j];
      } else {
        PassThroughPath(past[j], middle, before, paths, i);
      }
    }
  }

  lemma KeepsOthers(paths: seq<Path>, i: nat, middle: State, half: seq<State>, after: State, past: seq<State>,
                    all: set<Rule>, unreadable: set<int>)
    requires WellFormed(paths) && i < |paths| && PathMoments(after, past, middle, half, paths[i])
    requires DoneSoFar(middle, paths, i, all, unreadable)
    requires LookupRule(paths[i]) in after.rules && DenyRule(paths[i]) in after.rules
    ensures DoneSoFar(after, paths, i + 1, all, unreadable)
  {
    forall j | 0 <= j < |paths| && j != i
      ensures Denies(paths[j], after.rules) == Denies(paths[j], middle.rules)
      ensures LookupRule(paths[j]) in middle.rules ==> LookupRule(paths[j]) in after.rules
      ensures DenyRule(paths[j]) in middle.rules ==> DenyRule(paths[j]) in after.rules
    {
      OthersUntouched(paths[i], paths[j], after, middle);
      NotTouched(paths[i], LookupRule(paths[j]));
      NotTouched(paths[i], DenyRule(paths[j]));
    }
    hide Denies, LookupRule, DenyRule, PathMoment;
  }

  /** Every refusal in the band whose mark no path carries goes. */
  method Sweep(k: Kernel, paths: seq<Path>, all: set<Rule>, denied: set<Command>, ghost before: State, ghost was: seq<State>)
    requires AllMoments(k.state, k.past, before, was, paths)
    modifies k
    ensures AllMoments(k.state, k.past, before, was, paths)
    ensures forall r :: !IsStale(paths, r) ==> (r in k.state.rules <==> r in old(k.state.rules))
    ensures denied == {} ==> k.state.rules == old(k.state.rules) - Stale(paths, all)
    ensures k.state.hosts == old(k.state.hosts)
    ensures Stale(paths, all) == {} ==> k.issued == old(k.issued) && k.state == old(k.state)
  {
    hide PassMoment;
    ghost var start, first := k.state, k.issued;
    var todo := Stale(paths, all);
    while todo != {}
      invariant todo <= Stale(paths, all) && AllMoments(k.state, k.past, before, was, paths)
      invariant forall r :: !IsStale(paths, r) ==> (r in k.state.rules <==> r in start.rules)
      invariant denied == {} ==> k.state.rules == start.rules - (Stale(paths, all) - todo)
      invariant k.state.hosts == start.hosts
      invariant Stale(paths, all) == {} ==> k.issued == first && k.state == start
      decreases todo
    {
      var r :| r in todo;
      ghost var middle := k.state;
      var _ := k.Run(DelRule(r), denied);
      PassThroughSweep(k.state, middle, before, paths, r);
      todo := todo - {r};
    }
  }
}
