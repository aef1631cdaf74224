/**
 Which path carries the traffic: strict priority with a held failback, or, between fallbacks,
 measured quality with a margin, a hold and a dwell.
 */
module Selection {
  import opened Health

  datatype Path = Path(id: int, priority: int, enabled: bool)

  /** What one evaluation reads of a path: health, the verdicts that block it, how long it has
      been clean, and its score. */
  datatype Reading = Reading(usable: bool, quarantined: bool, overQuota: bool, degraded: bool, clean: int, score: real)

  datatype Policy = Policy(paths: seq<Path>, quality: bool, hold: int, dwell: int, marginPct: real)

  /** Identifiers are non-zero and, like priorities, distinct. */
  ghost predicate WellFormed(c: Policy) {
    && (forall p :: p in c.paths ==> p.id != 0)
    && (forall p, q :: p in c.paths && q in c.paths && (p.id == q.id || p.priority == q.priority) ==> p == q)
  }

  predicate Blocked(p: Path, r: Reading) { !p.enabled || r.quarantined || r.overQuota || r.degraded }

  predicate Eligible(p: Path, rs: map<int, Reading>) {
    p.id in rs && rs[p.id].usable && !Blocked(p, rs[p.id])
  }

  // ---- the pieces, as functions ----------------------------------------

  function Insert(p: Path, ps: seq<Path>): seq<Path> {
    if ps == [] || p.priority <= ps[0].priority then [p] + ps else [ps[0]] + Insert(p, ps[1..])
  }

  function ByPriority(ps: seq<Path>): seq<Path> {
    if ps == [] then [] else Insert(ps[0], ByPriority(ps[1..]))
  }

  function Passing(ps: seq<Path>, rs: map<int, Reading>): (out: seq<Path>)
    ensures forall p :: p in out <==> p in ps && Eligible(p, rs)
  {
    if ps == [] then []
    else
      var front, last := ps[..|ps| - 1], ps[|ps| - 1];
      assert ps == front + [last];
      Passing(front, rs) + if Eligible(last, rs) then [last] else []
  }

  function Candidates(c: Policy, rs: map<int, Reading>): seq<Path> { Passing(ByPriority(c.paths), rs) }

  function PathById(ps: seq<Path>, id: int): (r: Found)
    ensures r.Some? ==> r.path in ps && r.path.id == id
    ensures r.None? ==> forall p :: p in ps ==> p.id != id
  {
    if ps == [] then None else if ps[0].id == id then Some(ps[0]) else PathById(ps[1..], id)
  }

  datatype Found = Some(path: Path) | None

  predicate Leads(id: int, ps: seq<Path>) {
    exists p :: p in ps && p.id == id && p.enabled && forall q :: q in ps && q.enabled ==> p.priority <= q.priority
  }

  predicate BeatsByMargin(candidate: real, incumbent: real, marginPct: real) {
    var margin := if marginPct / 100.0 < 0.0 then 0.0 else marginPct / 100.0;
    candidate < incumbent * (1.0 - margin)
  }

  /** The first path of least score. */
  predicate IsBest(best: Path, ps: seq<Path>, rs: map<int, Reading>)
    requires forall p :: p in ps ==> p.id in rs
  {
    exists k :: 0 <= k < |ps| && ps[k] == best
                && (forall i :: 0 <= i < |ps| ==> rs[ps[k].id].score <= rs[ps[i].id].score)
                && (forall i :: 0 <= i < k ==> rs[ps[k].id].score < rs[ps[i].id].score)
  }

  /** The path that should carry the traffic, out of the eligible ones. */
  ghost predicate IsTarget(t: Path, c: Policy, rs: map<int, Reading>) {
    var es := Candidates(c, rs);
    && es != []
    && if c.quality && !Leads(es[0].id, c.paths) then IsBest(t, es, rs) else t == es[0]
  }

  datatype Outcome = Stay | Go(path: Path)

  /** The decision of one unpinned evaluation with target `t`. The clock of being beaten starts
      when `since` is unset. */
  function Decided(active: int, t: Path, c: Policy, rs: map<int, Reading>, since: Moment, last: Moment, now: int): Outcome {
    var a := PathById(c.paths, active);
    if active == 0 || a.None? || !Eligible(a.path, rs) then Go(t)
    else if t.id == active then Stay
    else if t.id !in rs then Stay
    else if !c.quality then
      if t.priority < a.path.priority && rs[t.id].clean >= c.hold then Go(t) else Stay
    else if Leads(t.id, c.paths) then
      if rs[t.id].clean >= c.hold then Go(t) else Stay
    else if !BeatsByMargin(rs[t.id].score, rs[active].score, c.marginPct) then Stay
    else if now - (if since.Never? then now else since.t) < c.hold then Stay
    else if c.dwell > 0 && last.At? && now - last.t < c.dwell then Stay
    else Go(t)
  }

  /** Where the clock of being beaten stands after it. */
  function ClockAfter(active: int, t: Path, c: Policy, rs: map<int, Reading>, since: Moment, now: int): Moment {
    var a := PathById(c.paths, active);
    if active == 0 || a.None? then since
    else if !Eligible(a.path, rs) || t.id == active || t.id !in rs then Never
    else if !c.quality then if t.priority < a.path.priority then Never else since
    else if Leads(t.id, c.paths) || !BeatsByMargin(rs[t.id].score, rs[active].score, c.marginPct) then Never
    else if since.Never? then At(now) else since
  }

  // ---- the selector ----------------------------------------------------

  class Selector {
    var active: int
    var pinned: int
    var beatenSince: Moment
    var lastSwitch: Moment

    constructor ()
      ensures active == 0 && pinned == 0 && beatenSince == Never && lastSwitch == Never
    {
      active, pinned, beatenSince, lastSwitch := 0, 0, Never, Never;
    }

    /** The most preferred enabled path, or 0. */
    method PreferredPathId(c: Policy) returns (best: int)
      requires WellFormed(c)
      ensures forall id :: id != 0 ==> (best == id <==> Leads(id, c.paths))
      ensures best != 0 ==> exists p :: p in c.paths && p.id == best && p.enabled
                                        && forall q :: q in c.paths && q.enabled ==> p.priority <= q.priority
      ensures best == 0 <==> forall p :: p in c.paths ==> !p.enabled
    {
      best := 0;
      var bestPrio := 0;
      ghost var bestPath := None;
      var i := 0;
      while i < |c.paths|
        invariant i <= |c.paths|
        invariant best == 0 <==> bestPath.None?
        invariant best == 0 ==> forall k :: 0 <= k < i ==> !c.paths[k].enabled
        invariant best != 0 ==> bestPath.path in c.paths && bestPath.path.enabled
                                && bestPath.path.id == best && bestPath.path.priority == bestPrio
        invariant best != 0 ==> forall k :: 0 <= k < i && c.paths[k].enabled ==> bestPrio <= c.paths[k].priority
      {
        var p := c.paths[i];
        if p.enabled && (best == 0 || p.priority < bestPrio) {
          best, bestPrio := p.id, p.priority;
          bestPath := Some(p);
        }
        i := i + 1;
      }
      if best != 0 {
        var b := bestPath.path;
        assert forall q :: q in c.paths && q.enabled ==> b.priority <= q.priority;
        assert Leads(best, c.paths);
        forall id | Leads(id, c.paths)
          ensures id == best
        {
          var p :| p in c.paths && p.id == id && p.enabled
                   && forall q :: q in c.paths && q.enabled ==> p.priority <= q.priority;
          assert p.priority == b.priority;
        }
      }
    }

    /** Measurements vote only once the preferred path is out. */
    method QualityTarget(eligible: seq<Path>, c: Policy, rs: map<int, Reading>) returns (best: Path)
      requires WellFormed(c) && eligible != [] && forall p :: p in eligible ==> p.id in rs && p.id != 0
      ensures best in eligible
      ensures if Leads(eligible[0].id, c.paths) then best == eligible[0] else IsBest(best, eligible, rs)
    {
      var top := eligible[0];
      var preferred := PreferredPathId(c);
      if top.id == preferred {
        return top;
      }
      best := top;
      var bestScore := rs[top.id].score;
      var i := 0;
      ghost var k := 0;
      while i < |eligible|
        invariant i <= |eligible| && k < |eligible| && (k < i || k == 0)
        invariant best == eligible[k] && bestScore == rs[best.id].score
        invariant forall j :: 0 <= j < i ==> rs[eligible[k].id].score <= rs[eligible[j].id].score
        invariant forall j :: 0 <= j < k ==> rs[eligible[k].id].score < rs[eligible[j].id].score
      {
        var s := rs[eligible[i].id].score;
        if s < bestScore {
          best, bestScore := eligible[i], s;
          k := i;
        }
        i := i + 1;
      }
      assert IsBest(eligible[k], eligible, rs);
    }

    /** One evaluation's choice. A pin is obeyed whatever state its path is in; otherwise the choice
        is 0, and traffic held where it is, only when nothing is usable. */
    method SelectPath(c: Policy, rs: map<int, Reading>, now: int) returns (chosen: int, held: bool)
      requires WellFormed(c)
      modifies this`beatenSince
      ensures Pinned(c) ==> chosen == pinned && held == !Eligible(PathById(c.paths, pinned).path, rs)
      ensures !Pinned(c) ==> held == (Candidates(c, rs) == [])
      ensures !Pinned(c) ==> (held <==> NoneWorks(c, rs))
      ensures !Pinned(c) && held ==> chosen == 0
      ensures Pinned(c) || held ==> beatenSince == old(beatenSince)
      ensures !Pinned(c) && !held ==> exists t :: Chooses(t, c, rs, now, old(beatenSince), chosen)
    {
      var pin := PathById(c.paths, pinned);
      if pinned != 0 && pin.Some? {
        return pinned, !Eligible(pin.path, rs);
      }
      var eligible := EligiblePaths(c, rs);
      HeldExactly(c, rs);
      hide NoneWorks;
      if eligible == [] {
        return 0, true;
      }
      held := false;
      SortedSame(c.paths);
      assert forall p :: p in eligible <==> p in c.paths && Eligible(p, rs);
      var target := eligible[0];
      if c.quality {
        target := QualityTarget(eligible, c, rs);
      }
      assert IsTarget(target, c, rs);
      chosen := Weigh(target, c, rs, now);
      assert Chooses(target, c, rs, now, old(beatenSince), chosen);
    }

    /** Whether to go to the target now. */
    method Weigh(target: Path, c: Policy, rs: map<int, Reading>, now: int) returns (chosen: int)
      requires WellFormed(c) && target in c.paths && Eligible(target, rs)
      modifies this`beatenSince
      ensures beatenSince == ClockAfter(active, target, c, rs, old(beatenSince), now)
      ensures chosen == match Decided(active, target, c, rs, old(beatenSince), lastSwitch, now)
                        case Go(p) => p.id
                        case Stay => active
    {
      hide BeatsByMargin, PathById, Blocked;
      var found := PathById(c.paths, active);
      if active == 0 || found.None? {
        return target.id;
      }
      if !Eligible(found.path, rs) {
        beatenSince := Never;
        return target.id;
      }
      if target.id == active {
        beatenSince := Never;
        return active;
      }
      if !c.quality {
        if target.priority < found.path.priority {
          chosen := Failback(target.id, c, rs);
          return;
        }
        return active;
      }
      var preferred := PreferredPathId(c);
      assert target.id == preferred <==> Leads(target.id, c.paths);
      hide Leads, WellFormed;
      if target.id == preferred {
        chosen := Failback(target.id, c, rs);
        return;
      }
      if !BeatsByMargin(rs[target.id].score, rs[active].score, c.marginPct) {
        beatenSince := Never;
        return active;
      }
      if beatenSince.Never? {
        beatenSince := At(now);
      }
      if now - beatenSince.t < c.hold {
        return active;
      }
      if c.dwell > 0 && lastSwitch.At? && now - lastSwitch.t < c.dwell {
        return active;
      }
      return target.id;
    }

    /** Back to a more preferred path once it has been clean for the hold. */
    method Failback(target: int, c: Policy, rs: map<int, Reading>) returns (chosen: int)
      requires target in rs
      modifies this`beatenSince
      ensures beatenSince == Never
      ensures chosen == if rs[target].clean >= c.hold then target else active
    {
      beatenSince := Never;
      if rs[target].clean >= c.hold {
        return target;
      }
      return active;
    }

    predicate Pinned(c: Policy)
      reads this
    {
      pinned != 0 && PathById(c.paths, pinned).Some?
    }

    ghost predicate Chooses(t: Path, c: Policy, rs: map<int, Reading>, now: int, since: Moment, chosen: int)
      reads this
    {
      && IsTarget(t, c, rs)
      && beatenSince == ClockAfter(active, t, c, rs, since, now)
      && chosen == match Decided(active, t, c, rs, since, lastSwitch, now)
                   case Go(p) => p.id
                   case Stay => active
    }

    method EligiblePaths(c: Policy, rs: map<int, Reading>) returns (eligible: seq<Path>)
      ensures eligible == Candidates(c, rs)
    {
      var paths := ByPriority(c.paths);
      eligible := [];
      var i := 0;
      while i < |paths|
        invariant i <= |paths| && eligible == Passing(paths[..i], rs)
      {
        assert paths[..i + 1][..i] == paths[..i];
        if Eligible(paths[i], rs) {
          eligible := eligible + [paths[i]];
        }
        i := i + 1;
      }
      assert paths[..i] == paths;
    }

    /** Records a switch the kernel accepted. */
    method CommitSwitch(chosen: int, now: int)
      modifies this`active, this`lastSwitch
      ensures active == chosen && lastSwitch == At(now)
    {
      active, lastSwitch := chosen, At(now);
    }
  }

  // ---- the target ------------------------------------------------------

  lemma {:induction false} InsertKeeps(p: Path, ps: seq<Path>)
    ensures Sorted(ps) ==> Sorted(Insert(p, ps))
    ensures forall q :: q in Insert(p, ps) <==> q == p || q in ps
  {
    if ps != [] && p.priority > ps[0].priority {
      InsertKeeps(p, ps[1..]);
      assert ps == [ps[0]] + ps[1..];
      if Sorted(ps) {
        assert Sorted(ps[1..]);
        assert forall q :: q in ps[1..] ==> ps[0].priority <= q.priority;
      }
    }
  }

  ghost predicate Sorted(ps: seq<Path>) {
    forall i, j :: 0 <= i < j < |ps| ==> ps[i].priority <= ps[j].priority
  }

  lemma {:induction false} SortedSame(ps: seq<Path>)
    ensures Sorted(ByPriority(ps))
    ensures forall p :: p in ByPriority(ps) <==> p in ps
  {
    if ps != [] {
      SortedSame(ps[1..]);
      InsertKeeps(ps[0], ByPriority(ps[1..]));
      assert ps == [ps[0]] + ps[1..];
    }
  }

  lemma {:induction false} PassingSorted(ps: seq<Path>, rs: map<int, Reading>)
    requires Sorted(ps)
    ensures Sorted(Passing(ps, rs))
  {
    if ps != [] {
      var front, last := ps[..|ps| - 1], ps[|ps| - 1];
      PassingSorted(front, rs);
      forall p | p in Passing(front, rs)
        ensures p.priority <= last.priority
      {
        assert p in front;
      }
    }
  }

  /** No path of the policy is enabled, measured, usable and free of every verdict. */
  ghost predicate NoneWorks(c: Policy, rs: map<int, Reading>) {
    forall p :: p in c.paths && p.enabled && p.id in rs ==>
      var r := rs[p.id];
      !r.usable || r.quarantined || r.overQuota || r.degraded
  }

  lemma HeldExactly(c: Policy, rs: map<int, Reading>)
    ensures Candidates(c, rs) == [] <==> NoneWorks(c, rs)
  {
    SortedSame(c.paths);
    if Candidates(c, rs) != [] {
      assert Candidates(c, rs)[0] in Candidates(c, rs);
    }
  }

  /** In priority mode the target is the most preferred eligible path; in quality mode too while
      that path is the preferred one, and otherwise the one of least score, the most preferred of
      those if several share it. */
  lemma TargetIs(t: Path, c: Policy, rs: map<int, Reading>)
    requires WellFormed(c) && IsTarget(t, c, rs)
    ensures t in c.paths && Eligible(t, rs)
    ensures !c.quality ==> forall p :: p in c.paths && Eligible(p, rs) ==> t.priority <= p.priority
    ensures c.quality ==>
              || (Leads(t.id, c.paths) && forall p :: p in c.paths && Eligible(p, rs) ==> t.priority <= p.priority)
              || (forall p :: p in c.paths && Eligible(p, rs) ==> !Leads(p.id, c.paths) && Outscores(t, p, rs))
  {
    var sorted, es := ByPriority(c.paths), Candidates(c, rs);
    SortedSame(c.paths);
    PassingSorted(sorted, rs);
    assert t in es;
    forall p | p in c.paths && Eligible(p, rs)
      ensures es[0].priority <= p.priority
    {
      assert p in es;
    }
    var first := es[0];
    assert first in es;
    if c.quality && !Leads(first.id, c.paths) {
      forall p | p in c.paths && Eligible(p, rs)
        ensures !Leads(p.id, c.paths) && Outscores(t, p, rs)
      {
        assert p in es;
        BestOutscores(t, p, es, rs);
        if Leads(p.id, c.paths) {
          LeaderFirst(p, first, c);
        }
      }
    }
  }

  /** Scores better, or as well and is preferred. */
  predicate Outscores(t: Path, p: Path, rs: map<int, Reading>)
    requires t.id in rs && p.id in rs
  {
    rs[t.id].score < rs[p.id].score || (rs[t.id].score == rs[p.id].score && t.priority <= p.priority)
  }

  lemma BestOutscores(t: Path, p: Path, es: seq<Path>, rs: map<int, Reading>)
    requires Sorted(es) && p in es && (forall q :: q in es ==> q.id in rs) && IsBest(t, es, rs)
    ensures t.id in rs && Outscores(t, p, rs)
  {
    var k :| 0 <= k < |es| && es[k] == t
             && (forall i :: 0 <= i < |es| ==> rs[es[k].id].score <= rs[es[i].id].score)
             && (forall i :: 0 <= i < k ==> rs[es[k].id].score < rs[es[i].id].score);
    var i :| 0 <= i < |es| && es[i] == p;
  }

  lemma LeaderFirst(p: Path, e: Path, c: Policy)
    requires WellFormed(c) && p in c.paths && e in c.paths && e.enabled && Leads(p.id, c.paths)
    requires e.priority <= p.priority
    ensures p == e
  {}

  /** While the preferred path is eligible it is the target, whatever the scores. */
  lemma LeaderIsTarget(t: Path, a: Path, c: Policy, rs: map<int, Reading>)
    requires WellFormed(c) && IsTarget(t, c, rs) && a in c.paths && Eligible(a, rs) && Leads(a.id, c.paths)
    ensures t == a
  {
    TargetIs(t, c, rs);
    hide IsTarget, Leads;
    LeaderFirst(a, t, c);
  }

  lemma TargetUnique(t: Path, u: Path, c: Policy, rs: map<int, Reading>)
    requires IsTarget(t, c, rs) && IsTarget(u, c, rs)
    ensures t == u
  {}

  // ---- runs of evaluations ---------------------------------------------

  /** What an evaluation finds: the policy, the readings, the time, and whether an installation it
      asks for succeeds. */
  datatype Tick = Tick(policy: Policy, readings: map<int, Reading>, now: int, installs: bool)

  datatype State = State(active: int, since: Moment, last: Moment)

  /** What becomes of the choice: a switch is recorded only if its route went in. */
  ghost predicate Moves(s: State, k: Tick, v: State, t: Path) {
    var outcome := Decided(s.active, t, k.policy, k.readings, s.since, s.last, k.now);
    && v.since == ClockAfter(s.active, t, k.policy, k.readings, s.since, k.now)
    && if outcome.Go? && outcome.path.id != s.active && k.installs then v.active == outcome.path.id && v.last == At(k.now)
       else v.active == s.active && v.last == s.last
  }

  /** One unpinned evaluation and its commit, as `SelectPath` and `CommitSwitch` do them. */
  ghost predicate Evaluates(s: State, k: Tick, v: State) {
    if Candidates(k.policy, k.readings) == [] then v == s
    else exists t :: IsTarget(t, k.policy, k.readings) && Moves(s, k, v, t)
  }

  ghost predicate Run(ss: seq<State>, ks: seq<Tick>) {
    && |ss| == |ks| + 1
    && (forall i :: 0 <= i < |ks| ==> WellFormed(ks[i].policy) && Evaluates(ss[i], ks[i], ss[i + 1]))
    && (forall i, j :: 0 <= i < j < |ks| ==> ks[i].now <= ks[j].now)
    && ss[0].last == Never
  }

  predicate Switches(ss: seq<State>, i: nat)
    requires i + 1 < |ss|
  {
    ss[i + 1].active != ss[i].active
  }

  /** Whether the path carrying the traffic was still eligible. */
  predicate Elective(s: State, k: Tick) {
    s.active != 0
    && var a := PathById(k.policy.paths, s.active);
       a.Some? && Eligible(a.path, k.readings)
  }

  /** Enabled, measured, usable, and under no verdict. */
  predicate Works(p: Path, rs: map<int, Reading>) {
    && p.enabled && p.id in rs && rs[p.id].usable
    && !rs[p.id].quarantined && !rs[p.id].overQuota && !rs[p.id].degraded
  }

  /** Every switch, in either mode, goes to a working path. In priority mode a working path is
      left only for a strictly more preferred one that has been clean for the whole hold. */
  lemma LeavesForPreferred(ss: seq<State>, ks: seq<Tick>, i: nat)
    requires Run(ss, ks) && i < |ks| && Switches(ss, i)
    ensures var t := PathById(ks[i].policy.paths, ss[i + 1].active);
            && t.Some? && Works(t.path, ks[i].readings)
            && (!ks[i].policy.quality ==>
                  (forall p :: p in ks[i].policy.paths && Eligible(p, ks[i].readings) ==> t.path.priority <= p.priority)
                  && (Elective(ss[i], ks[i]) ==>
                        t.path.priority < PathById(ks[i].policy.paths, ss[i].active).path.priority
                        && ks[i].readings[t.path.id].clean >= ks[i].policy.hold))
  {
    var k := ks[i];
    var t :| IsTarget(t, k.policy, k.readings) && Moves(ss[i], k, ss[i + 1], t);
    TargetIs(t, k.policy, k.readings);
    assert PathById(k.policy.paths, t.id).path == t;
  }

  /** And conversely: in priority mode a working path is left as soon as a more preferred eligible
      one has been clean for the hold, if its route can be installed. */
  lemma PreferredWins(s: State, k: Tick, v: State, better: Path)
    requires WellFormed(k.policy) && Evaluates(s, k, v) && !k.policy.quality && k.installs && Elective(s, k)
    requires better in k.policy.paths && Eligible(better, k.readings)
    requires forall p :: p in k.policy.paths && Eligible(p, k.readings) ==> better.priority <= p.priority
    requires better.id != s.active
    ensures v.active == better.id <==> k.readings[better.id].clean >= k.policy.hold
    ensures v.active == better.id || v.active == s.active
  {
    SortedSame(k.policy.paths);
    assert better in Candidates(k.policy, k.readings);
    forall t | IsTarget(t, k.policy, k.readings)
      ensures t == better
    {
      TargetIs(t, k.policy, k.readings);
    }
    assert PathById(k.policy.paths, s.active).path.priority > better.priority;
  }

  /** In quality mode the preferred path takes the traffic back from a working fallback exactly when
      it has been clean for the hold, whatever the scores. */
  lemma ReturnsToPreferred(s: State, k: Tick, v: State, preferred: Path)
    requires WellFormed(k.policy) && Evaluates(s, k, v) && k.policy.quality && k.installs && Elective(s, k)
    requires preferred in k.policy.paths && Works(preferred, k.readings)
    requires forall q :: q in k.policy.paths && q.enabled ==> preferred.priority <= q.priority
    requires preferred.id != s.active
    ensures v.active == preferred.id <==> k.readings[preferred.id].clean >= k.policy.hold
    ensures v.active == preferred.id || v.active == s.active
  {
    hide IsTarget, Leads, BeatsByMargin, Candidates, PathById, WellFormed;
    LeadsIs(preferred, k.policy.paths);
    SomeCandidate(preferred, k.policy, k.readings);
    var t :| IsTarget(t, k.policy, k.readings) && Moves(s, k, v, t);
    LeaderIsTarget(t, preferred, k.policy, k.readings);
  }

  lemma LeadsIs(p: Path, ps: seq<Path>)
    requires p in ps && p.enabled && forall q :: q in ps && q.enabled ==> p.priority <= q.priority
    ensures Leads(p.id, ps)
  {}

  /** When the path in use no longer works there is no hold: the traffic moves at once. */
  lemma FailoverAtOnce(s: State, k: Tick, v: State)
    requires WellFormed(k.policy) && Evaluates(s, k, v) && k.installs
    requires forall p :: p in k.policy.paths && p.id == s.active ==> !Works(p, k.readings)
    requires exists p :: p in k.policy.paths && Works(p, k.readings)
    ensures exists p :: p in k.policy.paths && p.id == v.active && Works(p, k.readings)
  {
    hide IsTarget, Candidates, Leads, BeatsByMargin, ClockAfter;
    var e :| e in k.policy.paths && Works(e, k.readings);
    SomeCandidate(e, k.policy, k.readings);
    var t :| IsTarget(t, k.policy, k.readings) && Moves(s, k, v, t);
    TargetIs(t, k.policy, k.readings);
    assert t in k.policy.paths && Works(t, k.readings);
  }

  lemma SomeCandidate(e: Path, c: Policy, rs: map<int, Reading>)
    requires e in c.paths && Eligible(e, rs)
    ensures Candidates(c, rs) != []
  {
    SortedSame(c.paths);
    assert e in Candidates(c, rs);
  }

  /** In quality mode a working preferred path is never left. */
  lemma PreferredIsKept(ss: seq<State>, ks: seq<Tick>, i: nat, a: Path)
    requires Run(ss, ks) && i < |ks| && ks[i].policy.quality && ss[i].active != 0
    requires a in ks[i].policy.paths && a.id == ss[i].active && Works(a, ks[i].readings)
    requires forall q :: q in ks[i].policy.paths && q.enabled ==> a.priority <= q.priority
    ensures !Switches(ss, i)
  {
    hide IsTarget, Leads;
    var k := ks[i];
    LeadsIs(a, k.policy.paths);
    assert PathById(k.policy.paths, a.id).path == a;
    if Candidates(k.policy, k.readings) != [] {
      var t :| IsTarget(t, k.policy, k.readings) && Moves(ss[i], k, ss[i + 1], t);
      LeaderIsTarget(t, a, k.policy, k.readings);
    }
  }

  lemma LastMoves(s: State, k: Tick, v: State)
    requires Evaluates(s, k, v)
    ensures v.last == if v.active != s.active then At(k.now) else s.last
  {
    hide IsTarget;
  }

  lemma {:induction false} LastIsLatest(ss: seq<State>, ks: seq<Tick>, i: nat, j: nat)
    requires Run(ss, ks) && j < i <= |ks| && Switches(ss, j)
    ensures ss[i].last.At? && ks[j].now <= ss[i].last.t
    ensures i < |ks| ==> ss[i].last.t <= ks[i].now
    decreases i
  {
    hide Evaluates, WellFormed;
    if j < i - 1 {
      LastIsLatest(ss, ks, i - 1, j);
    }
    LastMoves(ss[i - 1], ks[i - 1], ss[i]);
  }

  lemma GoesTo(active: int, t: Path, c: Policy, rs: map<int, Reading>, since: Moment, last: Moment, now: int)
    requires Decided(active, t, c, rs, since, last, now).Go?
    ensures Decided(active, t, c, rs, since, last, now).path == t
  {
    hide Eligible, BeatsByMargin, Leads, PathById;
  }

  lemma ElectiveGo(active: int, t: Path, c: Policy, rs: map<int, Reading>, since: Moment, last: Moment, now: int)
    requires Decided(active, t, c, rs, since, last, now).Go? && t.id != active && active != 0 && t.id in rs
    requires PathById(c.paths, active).Some? && Eligible(PathById(c.paths, active).path, rs)
    requires c.quality && !Leads(t.id, c.paths)
    ensures c.dwell > 0 && last.At? ==> now - last.t >= c.dwell
    ensures c.hold > 0 ==> since.At? && since.t <= now - c.hold
    ensures active in rs && BeatsByMargin(rs[t.id].score, rs[active].score, c.marginPct)
  {
    hide BeatsByMargin, Leads, PathById, Blocked;
  }

  lemma ElectiveMove(s: State, k: Tick, v: State)
    requires WellFormed(k.policy) && Evaluates(s, k, v) && v.active != s.active
    requires k.policy.quality && Elective(s, k) && !Leads(v.active, k.policy.paths)
    ensures k.policy.dwell > 0 && s.last.At? ==> k.now - s.last.t >= k.policy.dwell
    ensures k.policy.hold > 0 ==> s.since.At? && s.since.t <= k.now - k.policy.hold
    ensures v.active in k.readings && s.active in k.readings
    ensures BeatsByMargin(k.readings[v.active].score, k.readings[s.active].score, k.policy.marginPct)
  {
    hide WellFormed, IsTarget, BeatsByMargin, Leads, Blocked, PathById, Candidates, Decided, ClockAfter;
    var t :| IsTarget(t, k.policy, k.readings) && Moves(s, k, v, t);
    TargetIs(t, k.policy, k.readings);
    GoesTo(s.active, t, k.policy, k.readings, s.since, s.last, k.now);
    ElectiveGo(s.active, t, k.policy, k.readings, s.since, s.last, k.now);
  }

  /** An elective move between two fallbacks comes no sooner than the dwell after any switch before
      it, and only for a path that scores better by the margin. */
  lemma DwellSpaces(ss: seq<State>, ks: seq<Tick>, i: nat, j: nat)
    requires Run(ss, ks) && j < i < |ks| && Switches(ss, i) && Switches(ss, j)
    requires ks[i].policy.quality && Elective(ss[i], ks[i]) && !Leads(ss[i + 1].active, ks[i].policy.paths)
    ensures ks[i].policy.dwell > 0 ==> ks[i].now - ks[j].now >= ks[i].policy.dwell
    ensures ks[i].policy.hold > 0 ==> ss[i].since.At? && ss[i].since.t <= ks[i].now - ks[i].policy.hold
    ensures var rs := ks[i].readings;
            && ss[i + 1].active in rs && ss[i].active in rs
            && rs[ss[i + 1].active].score
               < rs[ss[i].active].score * (1.0 - if ks[i].policy.marginPct < 0.0 then 0.0 else ks[i].policy.marginPct / 100.0)
  {
    hide Evaluates, WellFormed, Elective, Leads, BeatsByMargin;
    LastIsLatest(ss, ks, i, j);
    ElectiveMove(ss[i], ks[i], ss[i + 1]);
    var rs := ks[i].readings;
    MarginIs(rs[ss[i + 1].active].score, rs[ss[i].active].score, ks[i].policy.marginPct);
  }

  lemma MarginIs(candidate: real, incumbent: real, marginPct: real)
    ensures BeatsByMargin(candidate, incumbent, marginPct) <==>
            candidate < incumbent * (1.0 - if marginPct < 0.0 then 0.0 else marginPct / 100.0)
  {
    assert marginPct / 100.0 < 0.0 <==> marginPct < 0.0;
  }

  /** And conversely: with the preferred path out and a fallback scoring better than every other, the
      traffic moves to it from a working one as soon as it has been better by the margin for the hold and
      the dwell since the last switch is over, if its route can be installed. */
  lemma FallbackWins(s: State, k: Tick, v: State, a: Path, best: Path)
    requires WellFormed(k.policy) && Evaluates(s, k, v) && k.policy.quality && k.installs
    requires a in k.policy.paths && a.id == s.active && Works(a, k.readings)
    requires best in k.policy.paths && best.id != a.id && Works(best, k.readings)
    requires forall p :: p in k.policy.paths && p != best && Works(p, k.readings) ==>
               k.readings[best.id].score < k.readings[p.id].score
    requires exists q :: q in k.policy.paths && q.enabled
                         && forall p :: p in k.policy.paths && Works(p, k.readings) ==> q.priority < p.priority
    ensures v.active in {best.id, a.id}
    ensures v.active == best.id <==>
            && k.readings[best.id].score
               < k.readings[a.id].score * (1.0 - if k.policy.marginPct < 0.0 then 0.0 else k.policy.marginPct / 100.0)
            && (if s.since.Never? then 0 else k.now - s.since.t) >= k.policy.hold
            && (k.policy.dwell > 0 && s.last.At? ==> k.now - s.last.t >= k.policy.dwell)
  {
    hide BeatsByMargin, IsTarget, Candidates, ClockAfter, Leads;
    SomeCandidate(best, k.policy, k.readings);
    var t :| IsTarget(t, k.policy, k.readings) && Moves(s, k, v, t);
    TargetIs(t, k.policy, k.readings);
    NotLeading(t, k);
    assert Eligible(best, k.readings) && Eligible(a, k.readings) && t == best;
    assert PathById(k.policy.paths, a.id).path == a;
    MarginIs(k.readings[best.id].score, k.readings[a.id].score, k.policy.marginPct);
  }

  lemma NotLeading(t: Path, k: Tick)
    requires WellFormed(k.policy) && t in k.policy.paths && Works(t, k.readings)
    requires exists q :: q in k.policy.paths && q.enabled
                         && forall p :: p in k.policy.paths && Works(p, k.readings) ==> q.priority < p.priority
    ensures !Leads(t.id, k.policy.paths)
  {}

  /** The path in use works, but a fallback beats it by the margin. */
  ghost predicate Beaten(s: State, k: Tick) {
    Elective(s, k)
    && exists t :: IsTarget(t, k.policy, k.readings) && t.id != s.active && t.id in k.readings
                   && !Leads(t.id, k.policy.paths)
                   && BeatsByMargin(k.readings[t.id].score, k.readings[s.active].score, k.policy.marginPct)
  }

  /** An evaluation that never looks at the clock: nothing is eligible, or no known path is in use. */
  ghost predicate Unclocked(s: State, k: Tick) {
    Candidates(k.policy, k.readings) == [] || s.active == 0 || PathById(k.policy.paths, s.active).None?
  }

  lemma ClockStep(s: State, k: Tick, v: State)
    requires WellFormed(k.policy) && Evaluates(s, k, v) && k.policy.quality
    ensures v.since == if Unclocked(s, k) then s.since
                       else if !Beaten(s, k) then Never
                       else if s.since.Never? then At(k.now) else s.since
  {
    hide IsTarget, Leads, Blocked, BeatsByMargin, Candidates, PathById, WellFormed, Decided;
    if !Unclocked(s, k) {
      var t :| IsTarget(t, k.policy, k.readings) && Moves(s, k, v, t);
      TargetIs(t, k.policy, k.readings);
      forall u | IsTarget(u, k.policy, k.readings)
        ensures u == t
      {
        TargetUnique(u, t, k.policy, k.readings);
      }
    }
  }

  /** The hold for a move between fallbacks is counted honestly: a running clock began when the path
      then in use was beaten, and at every evaluation since that looked, the path in use at that
      evaluation was beaten - not always the same path, as a move between fallbacks leaves it running. */
  lemma {:induction false} ClockRuns(ss: seq<State>, ks: seq<Tick>, i: nat)
    requires Run(ss, ks) && i < |ss| && ss[0].since == Never && forall m :: 0 <= m < |ks| ==> ks[m].policy.quality
    ensures ss[i].since.At? ==>
              exists k :: 0 <= k < i && ks[k].now == ss[i].since.t && Beaten(ss[k], ks[k])
                          && forall m :: k <= m < i ==> Beaten(ss[m], ks[m]) || Unclocked(ss[m], ks[m])
  {
    hide Evaluates, WellFormed, Beaten, Unclocked;
    if i > 0 && ss[i].since.At? {
      var last := i - 1;
      ClockStep(ss[last], ks[last], ss[i]);
      if ss[last].since.At? {
        ClockRuns(ss, ks, last);
        var k :| 0 <= k < last && ks[k].now == ss[last].since.t && Beaten(ss[k], ks[k])
                 && forall m :: k <= m < last ==> Beaten(ss[m], ks[m]) || Unclocked(ss[m], ks[m]);
        assert forall m :: k <= m < i ==> Beaten(ss[m], ks[m]) || Unclocked(ss[m], ks[m]);
      }
    }
  }

  /** A margin is an improvement: nothing takes traffic from a path with a perfect score. */
  lemma MarginIsStrict(candidate: real, incumbent: real, marginPct: real)
    requires candidate >= 0.0 && incumbent >= 0.0 && BeatsByMargin(candidate, incumbent, marginPct)
    ensures candidate < incumbent
  {
    var margin := if marginPct / 100.0 < 0.0 then 0.0 else marginPct / 100.0;
    assert incumbent * margin >= 0.0;
    assert incumbent * (1.0 - margin) == incumbent - incumbent * margin;
  }

  /** The same paths eligible with the same scores. */
  ghost predicate Frozen(k: Tick, l: Tick) {
    && k.policy == l.policy
    && (forall p :: p in k.policy.paths ==> Eligible(p, k.readings) == Eligible(p, l.readings))
    && (forall p :: p in k.policy.paths && Eligible(p, k.readings) ==>
          k.readings[p.id].score == l.readings[p.id].score)
  }

  lemma {:induction false} PassingFrozen(ps: seq<Path>, k: map<int, Reading>, l: map<int, Reading>)
    requires forall p :: p in ps ==> Eligible(p, k) == Eligible(p, l)
    ensures Passing(ps, k) == Passing(ps, l)
  {
    if ps != [] {
      PassingFrozen(ps[..|ps| - 1], k, l);
    }
  }

  lemma BestFrozen(t: Path, es: seq<Path>, k: map<int, Reading>, l: map<int, Reading>)
    requires forall p :: p in es ==> p.id in k && p.id in l && k[p.id].score == l[p.id].score
    requires IsBest(t, es, k)
    ensures IsBest(t, es, l)
  {
    var n :| 0 <= n < |es| && es[n] == t
             && (forall i :: 0 <= i < |es| ==> k[es[n].id].score <= k[es[i].id].score)
             && (forall i :: 0 <= i < n ==> k[es[n].id].score < k[es[i].id].score);
    assert forall i :: 0 <= i < |es| ==> es[i] in es;
  }

  lemma TargetFrozen(t: Path, k: Tick, l: Tick)
    requires WellFormed(k.policy) && Frozen(k, l) && IsTarget(t, k.policy, k.readings)
    ensures IsTarget(t, l.policy, l.readings)
  {
    hide IsBest, Leads, Blocked;
    SortedSame(k.policy.paths);
    PassingFrozen(ByPriority(k.policy.paths), k.readings, l.readings);
    var es := Candidates(k.policy, k.readings);
    assert forall p :: p in es ==> k.readings[p.id].score == l.readings[p.id].score;
    if k.policy.quality && !Leads(es[0].id, k.policy.paths) {
      BestFrozen(t, es, k.readings, l.readings);
    }
  }

  lemma SwitchesToTarget(s: State, k: Tick, v: State)
    requires WellFormed(k.policy) && Evaluates(s, k, v) && v.active != s.active
    ensures exists t :: IsTarget(t, k.policy, k.readings) && t.id == v.active
  {}

  lemma TargetStays(s: State, k: Tick, v: State, t: Path)
    requires WellFormed(k.policy) && Evaluates(s, k, v) && IsTarget(t, k.policy, k.readings) && t.id == s.active
    ensures v.active == s.active
  {
    forall u | IsTarget(u, k.policy, k.readings)
      ensures u == t
    {
      TargetUnique(t, u, k.policy, k.readings);
    }
  }

  lemma {:induction false} SettledStays(ss: seq<State>, ks: seq<Tick>, i: nat, j: nat, t: Path)
    requires Run(ss, ks) && i <= j < |ss|
    requires forall m, n :: i <= m < |ks| && i <= n < |ks| ==> Frozen(ks[m], ks[n])
    requires t.id == ss[i].active && (i < |ks| ==> IsTarget(t, ks[i].policy, ks[i].readings))
    ensures ss[j].active == t.id
    decreases j - i
  {
    hide Evaluates, WellFormed, IsTarget, Frozen;
    if i < j {
      TargetStays(ss[i], ks[i], ss[i + 1], t);
      if i + 1 < |ks| {
        TargetFrozen(t, ks[i], ks[i + 1]);
      }
      SettledStays(ss, ks, i + 1, j, t);
    }
  }

  /** No oscillation on a standing picture: once eligibility and scores stop changing, at most one
      more switch ever happens, whatever the clocks and installations do. */
  lemma AtMostOneMore(ss: seq<State>, ks: seq<Tick>, from: nat, i: nat, j: nat)
    requires Run(ss, ks) && from <= i < j < |ks|
    requires forall m, n :: from <= m < |ks| && from <= n < |ks| ==> Frozen(ks[m], ks[n])
    requires Switches(ss, i)
    ensures !Switches(ss, j)
  {
    hide Evaluates, WellFormed, IsTarget, Frozen;
    SwitchesToTarget(ss[i], ks[i], ss[i + 1]);
    var t :| IsTarget(t, ks[i].policy, ks[i].readings) && t.id == ss[i + 1].active;
    TargetFrozen(t, ks[i], ks[i + 1]);
    SettledStays(ss, ks, i + 1, j, t);
    SettledStays(ss, ks, i + 1, j + 1, t);
  }

  /** The hold is real: a path whose reading is clean for a positive hold lost nothing in it. */
  lemma HoldMeansNoLoss(h: seq<Obs>, hc: Config, now: int, r: Reading, c: Policy)
    requires InOrder(h) && c.hold > 0
    requires r.clean == Clean(PulseAfter(h, |h|, hc), now) && r.clean >= c.hold
    ensures forall k :: 0 <= k < |h| && h[k].at > now - c.hold ==> !h[k].lost
  {
    CleanForMeansNoLoss(h, |h|, hc, now, c.hold);
  }
}
