/**
 One path's health: what its probe results say of it, how long it has been clean, and the
 circuit breaker that parks a path which keeps failing.
 */
module Health {
  import opened Words
  import opened Probing

  datatype Verdict = Unknown | Up | Suspect | Down

  datatype Moment = Never | At(t: int)

  datatype Config = Config(
    failThreshold: int, recoverThreshold: int,
    flapWindow: int, flapThreshold: int, base: int64, cap: int64)

  // ---- the cooldown ----------------------------------------------------

  predicate StopsAt(d: int64, cap: int64) { (cap > 0 && d >= cap) || d > MAX_INT64 / 2 }

  function Doubled(d: int64, cap: int64, n: nat): int64
    decreases n
  {
    if n == 0 || StopsAt(d, cap) then d else Doubled(Wrap(d * 2), cap, n - 1)
  }

  function Cooldown(base: int64, cap: int64, level: nat): int64 {
    var d := Doubled(base, cap, level);
    var capped := if cap > 0 && d > cap then cap else d;
    if capped < base then base else capped
  }

  /** `d` times two to the `n`. */
  function Times2(d: nat, n: nat): (r: nat)
    ensures r >= d
  {
    if n == 0 then d else 2 * Times2(d, n - 1)
  }

  lemma {:induction false} Times2Front(d: nat, n: nat)
    ensures Times2(2 * d, n) == Times2(d, n + 1)
  {
    if n > 0 {
      Times2Front(d, n - 1);
    }
  }

  lemma {:induction false} Times2Grows(d: nat, i: nat, j: nat)
    requires i <= j
    ensures Times2(d, i) <= Times2(d, j)
    decreases j
  {
    if i < j {
      Times2Grows(d, i, j - 1);
    }
  }

  const HALF_RANGE: int := 0x4000_0000_0000_0000

  lemma WrapSmall(x: int)
    requires MIN_INT64 <= x <= MAX_INT64
    ensures Wrap(x) == x
  {}

  /** Doubling never wraps: it is exact until it passes the cap or half the range. */
  lemma {:induction false} DoubledExact(d: int64, cap: int64, n: nat) returns (k: nat)
    requires d >= 0
    ensures k <= n && Doubled(d, cap, n) == Times2(d, k)
    ensures k == n || StopsAt(Doubled(d, cap, n), cap)
    decreases n
  {
    if n == 0 || StopsAt(d, cap) {
      k := 0;
    } else {
      WrapSmall(d * 2);
      hide Wrap;
      var rest := DoubledExact(d * 2, cap, n - 1);
      Times2Front(d, rest);
      k := rest + 1;
    }
  }

  /** With a cap up to half the range the cooldown is exactly the doubled base, held to the cap,
      and never below the base. */
  lemma CooldownExact(base: int64, cap: int64, level: nat)
    requires base >= 0 && 0 < cap <= HALF_RANGE
    ensures Cooldown(base, cap, level) == Max(base, Min(cap, Times2(base, level)))
  {
    var k := DoubledExact(base, cap, level);
    Times2Grows(base, k, level);
  }

  /** With any cap or none it is never below the base, and keeps growing until it passes half the
      range: no number of failures switches the breaker off. */
  lemma CooldownHolds(base: int64, cap: int64, level: nat)
    requires base >= 0
    ensures base <= Cooldown(base, cap, level)
    ensures cap <= 0 ==> Cooldown(base, cap, level) >= Min(Times2(base, level), HALF_RANGE)
    ensures 0 < cap ==> Cooldown(base, cap, level) <= Max(base, cap)
  {
    var k := DoubledExact(base, cap, level);
  }

  lemma {:induction false} DoubledGrows(d: int64, cap: int64, n: nat)
    requires d >= 0
    ensures Doubled(d, cap, n) <= Doubled(d, cap, n + 1)
    decreases n
  {
    if !StopsAt(d, cap) && n > 0 {
      DoubledGrows(d * 2, cap, n - 1);
    }
  }

  lemma {:induction false} CooldownMonotone(base: int64, cap: int64, i: nat, j: nat)
    requires base >= 0 && i <= j
    ensures Cooldown(base, cap, i) <= Cooldown(base, cap, j)
    decreases j
  {
    if i < j {
      CooldownMonotone(base, cap, i, j - 1);
      DoubledGrows(base, cap, j - 1);
    }
  }

  // ---- one result, one failure -----------------------------------------

  datatype Pulse = Pulse(health: Verdict, losses: nat, oks: nat, clean: Moment)

  predicate Condemns(p: Pulse, lost: bool, c: Config) {
    lost && p.losses + 1 >= c.failThreshold && p.health != Down
  }

  function Felt(p: Pulse, lost: bool, now: int, c: Config): Pulse {
    if lost then
      var h := if Condemns(p, lost, c) then Down else if p.health == Up then Suspect else p.health;
      Pulse(h, p.losses + 1, 0, Never)
    else if p.health != Up && p.oks + 1 >= c.recoverThreshold then Pulse(Up, 0, p.oks + 1, At(now))
    else Pulse(if p.health == Unknown then Suspect else p.health, 0, p.oks + 1, p.clean)
  }

  datatype Breaker = Breaker(failures: seq<int>, until: Moment, level: nat)

  function Recent(fs: seq<int>, cutoff: int): seq<int> {
    if fs == [] then []
    else
      var front, last := fs[..|fs| - 1], fs[|fs| - 1];
      Recent(front, cutoff) + if last > cutoff then [last] else []
  }

  function Failed(b: Breaker, now: int, c: Config): Breaker {
    var kept := Recent(b.failures + [now], now - c.flapWindow);
    if c.flapThreshold > 0 && |kept| >= c.flapThreshold then
      Breaker([], At(now + Cooldown(c.base, c.cap, b.level)), b.level + 1)
    else b.(failures := kept)
  }

  /** The last `size` results. */
  function Tail(rs: seq<Result>, size: nat): (w: seq<Result>)
    ensures |w| == Min(size, |rs|) && forall i :: 0 <= i < |w| ==> w[i] == rs[|rs| - |w| + i]
  {
    if |rs| > size then rs[|rs| - size..] else rs
  }

  class Tracker {
    var cfg: Config
    var health: Verdict
    var consecLoss: nat
    var consecOK: nat
    var cleanSince: Moment
    var failures: seq<int>
    var quarantineUntil: Moment
    var quarantineLevel: nat
    var windowSize: nat
    var window: seq<Result>

    constructor (c: Config, size: nat)
      ensures cfg == c && GetPulse() == Pulse(Unknown, 0, 0, Never) && GetBreaker() == Breaker([], Never, 0)
      ensures window == [] && windowSize == Max(size, 5)
    {
      cfg, health, consecLoss, consecOK, cleanSince := c, Unknown, 0, 0, Never;
      failures, quarantineUntil, quarantineLevel := [], Never, 0;
      windowSize, window := if size < 5 then 5 else size, [];
    }

    function GetPulse(): Pulse
      reads this
    {
      Pulse(health, consecLoss, consecOK, cleanSince)
    }

    function GetBreaker(): Breaker
      reads this
    {
      Breaker(failures, quarantineUntil, quarantineLevel)
    }

    method AddToWindow(r: Result)
      modifies this`window
      ensures window == Tail(old(window) + [r], windowSize)
    {
      window := window + [r];
      if |window| > windowSize {
        window := window[|window| - windowSize..];
      }
    }

    method Observe(r: Result, now: int) returns (changed: bool)
      modifies this
      ensures cfg == old(cfg) && windowSize == old(windowSize)
      ensures GetPulse() == Felt(old(GetPulse()), r.lost, now, cfg)
      ensures GetBreaker() == if Condemns(old(GetPulse()), r.lost, cfg) then Failed(old(GetBreaker()), now, cfg)
                              else old(GetBreaker())
      ensures window == Tail(old(window) + [r], windowSize)
      ensures changed == (health != old(health))
    {
      AddToWindow(r);
      var from := health;
      if r.lost {
        consecLoss := consecLoss + 1;
        consecOK := 0;
        cleanSince := Never;
        if health == Up {
          health := Suspect;
        }
        if consecLoss >= cfg.failThreshold && health != Down {
          health := Down;
          RecordFailure(now);
          return true;
        }
      } else {
        consecOK := consecOK + 1;
        consecLoss := 0;
        if health != Up && consecOK >= cfg.recoverThreshold {
          health := Up;
          cleanSince := At(now);
          return true;
        }
        if health == Unknown && consecOK > 0 {
          health := Suspect;
        }
      }
      return from != health;
    }

    method RecordFailure(now: int)
      modifies this`failures, this`quarantineUntil, this`quarantineLevel
      ensures GetBreaker() == Failed(old(GetBreaker()), now, cfg)
    {
      failures := failures + [now];
      ghost var all := failures;
      var cutoff := now - cfg.flapWindow;
      var kept, i := [], 0;
      while i < |failures|
        invariant i <= |failures| && failures == all
        invariant quarantineUntil == old(quarantineUntil) && quarantineLevel == old(quarantineLevel)
        invariant kept == Recent(all[..i], cutoff)
      {
        assert all[..i + 1][..i] == all[..i];
        if failures[i] > cutoff {
          kept := kept + [failures[i]];
        }
        i := i + 1;
      }
      assert all[..i] == all;
      failures := kept;
      if cfg.flapThreshold > 0 && |failures| >= cfg.flapThreshold {
        var d := LongestCooldown(cfg.base, cfg.cap, quarantineLevel);
        quarantineUntil := At(now + d);
        quarantineLevel := quarantineLevel + 1;
        failures := [];
      }
    }

    method LongestCooldown(base: int64, cap: int64, level: nat) returns (d: int64)
      ensures d == Cooldown(base, cap, level)
    {
      d := base;
      var i := 0;
      while i < level
        invariant i <= level && Doubled(base, cap, level) == Doubled(d, cap, level - i)
      {
        if cap > 0 && d >= cap {
          break;
        }
        if d > MAX_INT64 / 2 {
          break;
        }
        d := Wrap(d * 2);
        i := i + 1;
      }
      if cap > 0 && d > cap {
        d := cap;
      }
      if d < base {
        d := base;
      }
    }

    /** New thresholds and a new window size; what is known about the path stays. */
    method Retune(c: Config, size: nat)
      modifies this
      ensures cfg == c && GetPulse() == old(GetPulse()) && GetBreaker() == old(GetBreaker())
      ensures old(|window| <= windowSize) ==> window == Tail(old(window), windowSize)
      ensures windowSize == if size == old(windowSize) then size else Max(size, 5)
    {
      cfg := c;
      if size != windowSize {
        Resize(size);
      }
    }

    method Resize(size: nat)
      modifies this`windowSize, this`window
      ensures windowSize == Max(size, 5) && window == Tail(old(window), windowSize)
    {
      hide Tail;
      var entries := window;
      windowSize, window := if size < 5 then 5 else size, [];
      TailNone(windowSize);
      var i := 0;
      while i < |entries|
        invariant i <= |entries| && windowSize == Max(size, 5)
        invariant window == Tail(entries[..i], windowSize)
      {
        TailOfTail(entries[..i], entries[i], windowSize);
        assert entries[..i] + [entries[i]] == entries[..i + 1];
        AddToWindow(entries[i]);
        i := i + 1;
      }
      assert entries[..i] == entries;
    }

    method ClearQuarantine()
      modifies this`quarantineUntil, this`quarantineLevel, this`failures
      ensures GetBreaker() == Breaker([], Never, 0)
    {
      quarantineUntil, quarantineLevel, failures := Never, 0, [];
    }

    function CleanFor(now: int): int
      reads this
    {
      Clean(GetPulse(), now)
    }

    predicate Quarantined(now: int)
      reads this
    {
      Parked(GetBreaker(), now)
    }

    predicate Usable()
      reads this
    {
      Carries(health)
    }
  }

  predicate Carries(v: Verdict) { v == Up || v == Suspect }

  function Clean(p: Pulse, now: int): int { if p.clean.Never? then 0 else now - p.clean.t }

  predicate Parked(b: Breaker, now: int) { b.until.At? && now < b.until.t }

  /** The window after a series of results, taken in one at a time. */
  function WindowAfter(rs: seq<Result>, size: nat): seq<Result> {
    if rs == [] then [] else Tail(WindowAfter(rs[..|rs| - 1], size) + [rs[|rs| - 1]], size)
  }

  /** It holds the newest results and no others, in the order they came. */
  lemma {:induction false} WindowIsNewest(rs: seq<Result>, size: nat)
    ensures var w := WindowAfter(rs, size);
            |w| == Min(size, |rs|) && w == rs[|rs| - |w|..]
  {
    hide Tail;
    if rs != [] {
      var front := rs[..|rs| - 1];
      WindowIsNewest(front, size);
      var was, w := WindowAfter(front, size), WindowAfter(rs, size);
      forall i | 0 <= i < |w|
        ensures w[i] == rs[|rs| - |w| + i]
      {
        var k := |was| + 1 - |w| + i;
        assert w[i] == (was + [rs[|rs| - 1]])[k];
        assert k < |was| ==> was[k] == front[|front| - |was| + k];
      }
    }
  }

  lemma TailNone(size: nat)
    ensures Tail([], size) == []
  {}

  lemma TailOfTail(rs: seq<Result>, r: Result, size: nat)
    ensures Tail(Tail(rs, size) + [r], size) == Tail(rs + [r], size)
  {}

  // ---- health is a function of the results -----------------------------

  datatype Obs = Obs(lost: bool, at: int)

  /** The tracker's pulse after the first `n` results. */
  function PulseAfter(h: seq<Obs>, n: nat, c: Config): Pulse
    requires n <= |h|
  {
    if n == 0 then Pulse(Unknown, 0, 0, Never)
    else Felt(PulseAfter(h, n - 1, c), h[n - 1].lost, h[n - 1].at, c)
  }

  /** How many results in a row, up to the `n`th, were losses, or were not. */
  function Streak(h: seq<Obs>, n: nat, lost: bool): (k: nat)
    requires n <= |h|
    ensures k <= n
  {
    if n == 0 || h[n - 1].lost != lost then 0 else 1 + Streak(h, n - 1, lost)
  }

  /** Such a streak is as long as it can be. */
  lemma {:induction false} StreakExact(h: seq<Obs>, n: nat, lost: bool, k: nat)
    requires n <= |h|
    ensures k == Streak(h, n, lost) <==>
            k <= n && (forall i :: n - k <= i < n ==> h[i].lost == lost) && (k < n ==> h[n - k - 1].lost != lost)
  {
    if n > 0 && h[n - 1].lost == lost && k > 0 {
      StreakExact(h, n - 1, lost, k - 1);
    }
  }

  predicate Recovered(h: seq<Obs>, n: nat, c: Config)
    requires n <= |h|
  {
    Streak(h, n, false) >= Max(1, c.recoverThreshold)
  }

  /** A run of losses reached the threshold, and no recovery has come since. */
  ghost predicate Condemned(h: seq<Obs>, n: nat, c: Config)
    requires n <= |h|
  {
    exists i :: 0 < i <= n && Streak(h, i, true) >= Max(1, c.failThreshold)
                && forall j :: i < j <= n ==> !Recovered(h, j, c)
  }

  ghost predicate AnyReply(h: seq<Obs>, n: nat)
    requires n <= |h|
  {
    exists i :: 0 <= i < n && !h[i].lost
  }

  lemma CondemnedStep(h: seq<Obs>, n: nat, c: Config)
    requires 0 < n <= |h|
    ensures Condemned(h, n, c) <==>
            Streak(h, n, true) >= Max(1, c.failThreshold) || (Condemned(h, n - 1, c) && !Recovered(h, n, c))
  {
    if Condemned(h, n, c) {
      var i :| 0 < i <= n && Streak(h, i, true) >= Max(1, c.failThreshold)
               && forall j :: i < j <= n ==> !Recovered(h, j, c);
      if i < n {
        assert Condemned(h, n - 1, c);
      }
    }
    if Condemned(h, n - 1, c) && !Recovered(h, n, c) {
      var i :| 0 < i <= n - 1 && Streak(h, i, true) >= Max(1, c.failThreshold)
               && forall j :: i < j <= n - 1 ==> !Recovered(h, j, c);
      assert forall j :: i < j <= n ==> !Recovered(h, j, c);
    }
  }

  /** Health is what the results say, however long ago: recovered, condemned, heard from, or none
      of these. And the clean streak is counted from the result that completed the recovery. */
  lemma {:induction false} HealthIsHistory(h: seq<Obs>, n: nat, c: Config)
    requires n <= |h|
    ensures var p := PulseAfter(h, n, c);
            && p.losses == Streak(h, n, true) && p.oks == Streak(h, n, false)
            && p.health == (if Recovered(h, n, c) then Up else if Condemned(h, n, c) then Down
                            else if AnyReply(h, n) then Suspect else Unknown)
            && p.clean == if Recovered(h, n, c) then At(h[RecoveryAt(h, n, c)].at) else Never
  {
    if n > 0 {
      HealthIsHistory(h, n - 1, c);
      CondemnedStep(h, n, c);
      assert AnyReply(h, n) <==> !h[n - 1].lost || AnyReply(h, n - 1) by {
        if AnyReply(h, n - 1) {
          var i :| 0 <= i < n - 1 && !h[i].lost;
          assert 0 <= i < n;
        }
      }
    }
  }

  /** The same, threshold by threshold: up exactly while the replies in a row reach the one; down only
      when the losses in a row once reached the other, at the `i`th result, with no recovery since; and
      carrying traffic while heard from and not down. */
  lemma VerdictsExactly(h: seq<Obs>, n: nat, c: Config) returns (i: nat)
    requires n <= |h|
    ensures var v := PulseAfter(h, n, c).health;
            && (v == Up <==> Streak(h, n, false) >= Max(1, c.recoverThreshold))
            && (v == Up <==> Recovered(h, n, c))
            && (v == Down ==> 0 < i <= n && Streak(h, i, true) >= Max(1, c.failThreshold)
                              && forall j :: i < j <= n ==> !Recovered(h, j, c))
            && (Carries(v) <==> v != Down && exists k :: 0 <= k < n && !h[k].lost)
  {
    hide PulseAfter, Recovered;
    HealthIsHistory(h, n, c);
    NotBoth(h, n, c);
    i := 0;
    if Condemned(h, n, c) {
      i :| 0 < i <= n && Streak(h, i, true) >= Max(1, c.failThreshold)
           && forall j :: i < j <= n ==> !Recovered(h, j, c);
    }
  }

  lemma NotBoth(h: seq<Obs>, n: nat, c: Config)
    requires n <= |h|
    ensures Recovered(h, n, c) ==> !Condemned(h, n, c) && AnyReply(h, n)
    ensures Recovered(h, n, c) <==> Streak(h, n, false) >= Max(1, c.recoverThreshold)
  {
    if Recovered(h, n, c) {
      forall i | 0 < i <= n && Streak(h, i, true) >= Max(1, c.failThreshold)
        ensures i < n
      {
      }
    }
  }

  /** Which result completed the recovery still in force. */
  function RecoveryAt(h: seq<Obs>, n: nat, c: Config): (k: nat)
    requires n <= |h| && Recovered(h, n, c)
    ensures k < n
  {
    n - Streak(h, n, false) + Max(1, c.recoverThreshold) - 1
  }

  ghost predicate InOrder(h: seq<Obs>) {
    forall i, j :: 0 <= i < j < |h| ==> h[i].at <= h[j].at
  }

  lemma {:induction false} StreakHolds(h: seq<Obs>, n: nat, lost: bool, k: nat)
    requires n <= |h| && n - Streak(h, n, lost) <= k < n
    ensures h[k].lost == lost
  {
    if k < n - 1 {
      StreakHolds(h, n - 1, lost, k);
    }
  }

  /** A path clean for a positive hold really was: nothing was lost for at least that long. */
  lemma CleanForMeansNoLoss(h: seq<Obs>, n: nat, c: Config, now: int, hold: int)
    requires n <= |h| && InOrder(h) && hold > 0
    ensures Clean(PulseAfter(h, n, c), now) >= hold
            <==> Recovered(h, n, c) && h[RecoveryAt(h, n, c)].at <= now - hold
    ensures Clean(PulseAfter(h, n, c), now) >= hold ==>
              PulseAfter(h, n, c).health == Up && forall k :: 0 <= k < n && h[k].at > now - hold ==> !h[k].lost
  {
    HealthIsHistory(h, n, c);
    if Clean(PulseAfter(h, n, c), now) >= hold {
      forall k | 0 <= k < n && h[k].at > now - hold
        ensures !h[k].lost
      {
        assert k > RecoveryAt(h, n, c);
        StreakHolds(h, n, false, k);
      }
    }
  }

  // ---- the breaker is a function of the condemnations ------------------

  datatype Event = Condemnation(at: int) | Cleared

  function After(es: seq<Event>, n: nat, c: Config): Breaker
    requires n <= |es|
  {
    if n == 0 then Breaker([], Never, 0)
    else if es[n - 1].Cleared? then Breaker([], Never, 0)
    else Failed(After(es, n - 1, c), es[n - 1].at, c)
  }

  /** The condemnations among events `from` to `to` later than `cutoff`. */
  function Within(es: seq<Event>, from: nat, to: nat, cutoff: int): seq<int>
    requires from <= to <= |es|
  {
    if from == to then []
    else
      Within(es, from, to - 1, cutoff)
      + if es[to - 1].Condemnation? && es[to - 1].at > cutoff then [es[to - 1].at] else []
  }

  /** Whether the `n`th event trips the breaker: enough condemnations in the window since the last
      trip or clear, counting this one. */
  predicate Trips(es: seq<Event>, n: nat, c: Config)
    requires 0 < n <= |es|
    decreases n, 0
  {
    es[n - 1].Condemnation? && |Within(es, Since(es, n - 1, c), n, es[n - 1].at - c.flapWindow)| >= c.flapThreshold
  }

  /** The number of events up to and including the last trip or clear. */
  function Since(es: seq<Event>, n: nat, c: Config): (s: nat)
    requires n <= |es|
    ensures s <= n
    decreases n, 1
  {
    if n == 0 then 0
    else if es[n - 1].Cleared? || Trips(es, n, c) then n
    else Since(es, n - 1, c)
  }

  ghost predicate Ordered(es: seq<Event>) {
    forall i, j :: 0 <= i < j < |es| && es[i].Condemnation? && es[j].Condemnation? ==> es[i].at <= es[j].at
  }

  lemma {:induction false} RecentWithin(es: seq<Event>, from: nat, to: nat, earlier: int, later: int)
    requires from <= to <= |es| && earlier <= later
    ensures Recent(Within(es, from, to, earlier), later) == Within(es, from, to, later)
  {
    if from < to {
      RecentWithin(es, from, to - 1, earlier, later);
      var w := Within(es, from, to - 1, earlier);
      assert w + [] == w;
      if es[to - 1].Condemnation? {
        RecentAppend(w, es[to - 1].at, later);
      }
    }
  }

  lemma RecentAppend(fs: seq<int>, last: int, cutoff: int)
    ensures Recent(fs + [last], cutoff) == Recent(fs, cutoff) + if last > cutoff then [last] else []
  {
    assert (fs + [last])[..|fs|] == fs;
  }

  /** The cutoff the latest condemnation pruned with. */
  function Cutoff(es: seq<Event>, n: nat, c: Config): int
    requires n <= |es|
  {
    if n == 0 then 0 else if es[n - 1].Condemnation? then es[n - 1].at - c.flapWindow else Cutoff(es, n - 1, c)
  }

  lemma {:induction false} CutoffEarlier(es: seq<Event>, from: nat, n: nat, c: Config, j: nat, any: int)
    requires from <= n <= j < |es| && Ordered(es) && es[j].Condemnation?
    ensures Cutoff(es, n, c) <= es[j].at - c.flapWindow
            || Within(es, from, n, any) == Within(es, from, n, Cutoff(es, n, c)) == []
    decreases n
  {
    if from < n && !es[n - 1].Condemnation? {
      CutoffEarlier(es, from, n - 1, c, j, any);
    }
  }

  /** The condemnations counted, event by event. */
  lemma {:induction false} WithinCounts(es: seq<Event>, from: nat, to: nat, cutoff: int)
    requires from <= to <= |es|
    ensures |Within(es, from, to, cutoff)| == |InWindow(es, from, to, cutoff)|
  {
    if from < to {
      WithinCounts(es, from, to - 1, cutoff);
      var late := es[to - 1].Condemnation? && es[to - 1].at > cutoff;
      assert InWindow(es, from, to, cutoff) == InWindow(es, from, to - 1, cutoff) + if late then {to - 1} else {};
    } else {
      assert InWindow(es, from, to, cutoff) == {};
    }
  }

  function InWindow(es: seq<Event>, from: nat, to: nat, cutoff: int): set<int>
    requires from <= to <= |es|
  {
    set i | from <= i < to && es[i].Condemnation? && es[i].at > cutoff
  }

  /** Since the last trip or clear there has been neither. */
  lemma {:induction false} SinceIsLast(es: seq<Event>, n: nat, c: Config, j: nat)
    requires n <= |es| && Since(es, n, c) < j <= n
    ensures es[j - 1].Condemnation? && !Trips(es, j, c)
  {
    hide Within;
    if j < n {
      SinceIsLast(es, n - 1, c, j);
    }
  }

  lemma {:induction false} SinceWasOne(es: seq<Event>, n: nat, c: Config)
    requires n <= |es| && Since(es, n, c) > 0
    ensures es[Since(es, n, c) - 1].Cleared? || Trips(es, Since(es, n, c), c)
  {
    hide Within;
    if Since(es, n, c) < n {
      SinceWasOne(es, n - 1, c);
    }
  }

  /** The list kept is the condemnations of the window, pruned again at each new one. */
  lemma Repruned(es: seq<Event>, n: nat, c: Config)
    requires 0 < n <= |es| && Ordered(es) && es[n - 1].Condemnation?
    ensures var s, now := Since(es, n - 1, c), es[n - 1].at;
            Recent(Within(es, s, n - 1, Cutoff(es, n - 1, c)) + [now], now - c.flapWindow)
            == Within(es, s, n, now - c.flapWindow)
  {
    var s, now := Since(es, n - 1, c), es[n - 1].at;
    var cut, later := Cutoff(es, n - 1, c), es[n - 1].at - c.flapWindow;
    CutoffEarlier(es, s, n - 1, c, n - 1, later);
    RecentAppend(Within(es, s, n - 1, cut), now, later);
    hide Since;
    if cut <= later {
      RecentWithin(es, s, n - 1, cut, later);
    }
  }

  lemma {:induction false} KeptAfter(es: seq<Event>, n: nat, c: Config)
    requires n <= |es| && Ordered(es) && c.flapThreshold > 0
    ensures After(es, n, c).failures == Within(es, Since(es, n, c), n, Cutoff(es, n, c))
    ensures |After(es, n, c).failures| < c.flapThreshold
    decreases n, 2
  {
    if n > 0 && es[n - 1].Condemnation? {
      AfterCondemnation(es, n, c);
      hide After, Trips;
    }
  }

  lemma {:induction false} AfterCondemnation(es: seq<Event>, n: nat, c: Config)
    requires 0 < n <= |es| && Ordered(es) && c.flapThreshold > 0 && es[n - 1].Condemnation?
    ensures var b, kept := After(es, n - 1, c), Within(es, Since(es, n - 1, c), n, es[n - 1].at - c.flapWindow);
            && |kept| <= c.flapThreshold
            && (Trips(es, n, c) <==> |kept| == c.flapThreshold)
            && After(es, n, c) ==
                 if Trips(es, n, c) then
                   Breaker([], At(es[n - 1].at + Cooldown(c.base, c.cap, b.level)), b.level + 1)
                 else b.(failures := kept)
    decreases n, 1
  {
    hide Recent, Since, Within, Cooldown;
    KeptIs(es, n, c);
    FailedCases(After(es, n - 1, c), es[n - 1].at, c);
    AfterUnfolds(es, n, c);
    hide After, Failed;
  }

  lemma AfterUnfolds(es: seq<Event>, n: nat, c: Config)
    requires 0 < n <= |es| && es[n - 1].Condemnation?
    ensures After(es, n, c) == Failed(After(es, n - 1, c), es[n - 1].at, c)
  {
    hide Failed;
  }

  lemma {:induction false} KeptIs(es: seq<Event>, n: nat, c: Config)
    requires 0 < n <= |es| && Ordered(es) && c.flapThreshold > 0 && es[n - 1].Condemnation?
    ensures var kept := Recent(After(es, n - 1, c).failures + [es[n - 1].at], es[n - 1].at - c.flapWindow);
            && kept == Within(es, Since(es, n - 1, c), n, es[n - 1].at - c.flapWindow)
            && |kept| <= c.flapThreshold
    decreases n, 0
  {
    hide Recent, Since, Within, After, Cutoff, Ordered;
    KeptAfter(es, n - 1, c);
    Repruned(es, n, c);
    RecentShorter(After(es, n - 1, c).failures + [es[n - 1].at], es[n - 1].at - c.flapWindow);
  }

  lemma FailedCases(b: Breaker, now: int, c: Config)
    ensures var kept := Recent(b.failures + [now], now - c.flapWindow);
            Failed(b, now, c) == if c.flapThreshold > 0 && |kept| >= c.flapThreshold then
                                   Breaker([], At(now + Cooldown(c.base, c.cap, b.level)), b.level + 1)
                                 else b.(failures := kept)
  {
    hide Recent, Cooldown;
  }

  lemma {:induction false} RecentShorter(fs: seq<int>, cutoff: int)
    ensures |Recent(fs, cutoff)| <= |fs|
  {
    if fs != [] {
      RecentShorter(fs[..|fs| - 1], cutoff);
    }
  }

  /** While time runs forward the breaker trips exactly when the threshold's number of
      condemnations since the last trip or clear fall in the window - never early, never late -
      and parks the path for the cooldown of the trips since it was last cleared. */
  lemma TripsExactly(es: seq<Event>, n: nat, c: Config)
    requires 0 < n <= |es| && Ordered(es) && c.flapThreshold > 0 && es[n - 1].Condemnation?
    ensures var count := |Within(es, Since(es, n - 1, c), n, es[n - 1].at - c.flapWindow)|;
            && After(es, n, c).level == TripCount(es, n, c)
            && count <= c.flapThreshold
            && (count == c.flapThreshold ==>
                  After(es, n, c) == Breaker([], At(es[n - 1].at + Cooldown(c.base, c.cap, TripCount(es, n - 1, c))),
                                             TripCount(es, n - 1, c) + 1))
            && (count < c.flapThreshold ==>
                  && After(es, n, c).until == After(es, n - 1, c).until
                  && After(es, n, c).level == After(es, n - 1, c).level)
  {
    hide After, Cooldown, Within, Since;
    AfterCondemnation(es, n, c);
    LevelCounts(es, n, c);
    LevelCounts(es, n - 1, c);
  }

  /** The trips since the breaker was last cleared by hand. */
  function TripCount(es: seq<Event>, n: nat, c: Config): nat
    requires n <= |es|
  {
    if n == 0 || es[n - 1].Cleared? then 0
    else TripCount(es, n - 1, c) + if Trips(es, n, c) then 1 else 0
  }

  lemma {:induction false} LevelCounts(es: seq<Event>, n: nat, c: Config)
    requires n <= |es| && Ordered(es) && c.flapThreshold > 0
    ensures After(es, n, c).level == TripCount(es, n, c)
  {
    if n > 0 {
      LevelCounts(es, n - 1, c);
      if es[n - 1].Condemnation? {
        AfterCondemnation(es, n, c);
      }
    }
  }

  // ---- both together ---------------------------------------------------

  datatype Input = Saw(obs: Obs) | Clear

  datatype Whole = Whole(pulse: Pulse, breaker: Breaker)

  /** What `Observe` and `ClearQuarantine` make of a tracker's state. */
  function Folded(w: Whole, i: Input, c: Config): Whole {
    match i
    case Clear => w.(breaker := Breaker([], Never, 0))
    case Saw(o) =>
      Whole(Felt(w.pulse, o.lost, o.at, c), if Condemns(w.pulse, o.lost, c) then Failed(w.breaker, o.at, c) else w.breaker)
  }

  function State(ins: seq<Input>, n: nat, c: Config): Whole
    requires n <= |ins|
  {
    if n == 0 then Whole(Pulse(Unknown, 0, 0, Never), Breaker([], Never, 0))
    else Folded(State(ins, n - 1, c), ins[n - 1], c)
  }

  function Results(ins: seq<Input>, n: nat): seq<Obs>
    requires n <= |ins|
  {
    if n == 0 then [] else Results(ins, n - 1) + if ins[n - 1].Saw? then [ins[n - 1].obs] else []
  }

  function Events(ins: seq<Input>, n: nat, c: Config): seq<Event>
    requires n <= |ins|
  {
    if n == 0 then []
    else
      Events(ins, n - 1, c)
      + match ins[n - 1]
        case Clear => [Cleared]
        case Saw(o) => if Condemns(State(ins, n - 1, c).pulse, o.lost, c) then [Condemnation(o.at)] else []
  }

  lemma {:induction false} PulsePrefix(h: seq<Obs>, o: Obs, n: nat, c: Config)
    requires n <= |h|
    ensures PulseAfter(h + [o], n, c) == PulseAfter(h, n, c)
  {
    if n > 0 {
      PulsePrefix(h, o, n - 1, c);
    }
  }

  lemma {:induction false} AfterPrefix(es: seq<Event>, e: Event, n: nat, c: Config)
    requires n <= |es|
    ensures After(es + [e], n, c) == After(es, n, c)
  {
    if n > 0 {
      AfterPrefix(es, e, n - 1, c);
    }
  }

  /** Clearing the breaker never touches health, and only condemnations touch the breaker. */
  lemma TwoHistories(ins: seq<Input>, n: nat, c: Config)
    requires n <= |ins|
    ensures State(ins, n, c).pulse == PulseAfter(Results(ins, n), |Results(ins, n)|, c)
    ensures State(ins, n, c).breaker == After(Events(ins, n, c), |Events(ins, n, c)|, c)
  {
    PulseHistory(ins, n, c);
    BreakerHistory(ins, n, c);
  }

  lemma {:induction false} PulseHistory(ins: seq<Input>, n: nat, c: Config)
    requires n <= |ins|
    ensures State(ins, n, c).pulse == PulseAfter(Results(ins, n), |Results(ins, n)|, c)
  {
    hide Felt, Condemns, Failed;
    if n > 0 {
      PulseHistory(ins, n - 1, c);
      var h := Results(ins, n - 1);
      if ins[n - 1].Clear? {
        assert Results(ins, n) == h;
      } else {
        PulsePrefix(h, ins[n - 1].obs, |h|, c);
        assert (h + [ins[n - 1].obs])[|h|] == ins[n - 1].obs;
      }
    }
  }

  lemma {:induction false} BreakerHistory(ins: seq<Input>, n: nat, c: Config)
    requires n <= |ins|
    ensures State(ins, n, c).breaker == After(Events(ins, n, c), |Events(ins, n, c)|, c)
  {
    hide Felt, Condemns, Failed;
    if n > 0 {
      BreakerHistory(ins, n - 1, c);
      var es := Events(ins, n - 1, c);
      if ins[n - 1].Clear? {
        AfterPrefix(es, Cleared, |es|, c);
        assert (es + [Cleared])[|es|] == Cleared;
      } else if Condemns(State(ins, n - 1, c).pulse, ins[n - 1].obs.lost, c) {
        var e := Condemnation(ins[n - 1].obs.at);
        AfterPrefix(es, e, |es|, c);
        assert (es + [e])[|es|] == e;
      } else {
        assert Events(ins, n, c) == es;
      }
    }
  }

  ghost predicate Forward(ins: seq<Input>) {
    forall i, j :: 0 <= i < j < |ins| && ins[i].Saw? && ins[j].Saw? ==> ins[i].obs.at <= ins[j].obs.at
  }

  /** Results seen in time order make condemnations in time order. */
  lemma {:induction false} EventsForward(ins: seq<Input>, n: nat, c: Config)
    requires n <= |ins| && Forward(ins)
    ensures Ordered(Events(ins, n, c))
    ensures forall e, j :: e in Events(ins, n, c) && e.Condemnation? && n <= j < |ins| && ins[j].Saw?
                           ==> e.at <= ins[j].obs.at
  {
    hide Condemns, State;
    if n > 0 {
      EventsForward(ins, n - 1, c);
    }
  }

  /** When a tracker fed results in time order quarantines its path: at a condemnation, exactly when
      the condemnations since the last trip or clear that fall in the window, this one counted,
      number the threshold - and then for the cooldown of the trips so far. */
  lemma QuarantinesExactly(ins: seq<Input>, n: nat, c: Config)
    requires 0 < n <= |ins| && Forward(ins) && c.flapThreshold > 0 && ins[n - 1].Saw?
    requires Condemns(State(ins, n - 1, c).pulse, ins[n - 1].obs.lost, c)
    ensures var es, m := Events(ins, n, c), |Events(ins, n - 1, c)|;
            && |es| == m + 1 && es[m] == Condemnation(ins[n - 1].obs.at)
            && var before, after, now := State(ins, n - 1, c).breaker, State(ins, n, c).breaker, ins[n - 1].obs.at;
            var count, trips := |Within(es, Since(es, m, c), m + 1, now - c.flapWindow)|, TripCount(es, m, c);
            && count <= c.flapThreshold && before.level == trips
            && (count == c.flapThreshold
                <==> after == Breaker([], At(now + Cooldown(c.base, c.cap, trips)), trips + 1))
            && (count != c.flapThreshold ==> after.until == before.until && after.level == before.level)
  {
    hide After, Within, Since, TripCount, Trips, Cooldown, Condemns, Ordered, Forward;
    var es, m := Events(ins, n, c), |Events(ins, n - 1, c)|;
    EventsForward(ins, n, c);
    BreakerHistory(ins, n - 1, c);
    BreakerHistory(ins, n, c);
    AfterPrefix(Events(ins, n - 1, c), Condemnation(ins[n - 1].obs.at), m, c);
    TripsExactly(es, m + 1, c);
    LevelCounts(es, m, c);
  }

  /** The breaker is seen to park exactly from its latest trip, if it was not cleared since, until the
      cooldown of that trip is over. */
  lemma {:induction false} ParkedExactly(ins: seq<Input>, n: nat, c: Config, t: int)
    requires n <= |ins|
    ensures Parked(State(ins, n, c).breaker, t) <==> exists m :: 0 < m <= n && ParksUntil(ins, m, n, c, t)
  {
    hide Parked, Folded, Trip, Undisturbed, ParksUntil, Cooldown;
    if n == 0 {
      NeverParked(ins, c, t);
    } else {
      ParkedExactly(ins, n - 1, c, t);
      BreakerStep(ins, n, c, t);
      ParksNow(ins, n, c, t);
      if Parked(State(ins, n - 1, c).breaker, t) {
        var m :| 0 < m <= n - 1 && ParksUntil(ins, m, n - 1, c, t);
        ParksNext(ins, m, n, c, t);
      }
      forall m | 0 < m <= n && ParksUntil(ins, m, n, c, t)
        ensures Parked(State(ins, n, c).breaker, t)
      {
        if m < n {
          ParksNext(ins, m, n, c, t);
        }
      }
    }
  }

  lemma NeverParked(ins: seq<Input>, c: Config, t: int)
    ensures !Parked(State(ins, 0, c).breaker, t)
  {}

  lemma ParksNow(ins: seq<Input>, n: nat, c: Config, t: int)
    requires 0 < n <= |ins|
    ensures ParksUntil(ins, n, n, c, t) <==>
            && Trip(ins, n, c) && ins[n - 1].Saw?
            && t < ins[n - 1].obs.at + Cooldown(c.base, c.cap, State(ins, n - 1, c).breaker.level)
  {
    hide State, Cooldown;
  }

  lemma ParksNext(ins: seq<Input>, m: nat, n: nat, c: Config, t: int)
    requires 0 < m < n <= |ins|
    ensures ParksUntil(ins, m, n, c, t) <==> ParksUntil(ins, m, n - 1, c, t) && Undisturbed(ins, n, c)
  {
    hide State, Cooldown, Undisturbed;
  }

  /** The `m`th input tripped the breaker. */
  predicate Trip(ins: seq<Input>, m: nat, c: Config)
    requires 0 < m <= |ins|
  {
    ins[m - 1].Saw? && State(ins, m, c).breaker.level > State(ins, m - 1, c).breaker.level
  }

  predicate Undisturbed(ins: seq<Input>, m: nat, c: Config)
    requires 0 < m <= |ins|
  {
    ins[m - 1].Saw? && !Trip(ins, m, c)
  }

  /** The `m`th input tripped it, nothing up to the `n`th tripped or cleared it again, and the cooldown
      is not over. */
  ghost predicate ParksUntil(ins: seq<Input>, m: nat, n: nat, c: Config, t: int)
    requires 0 < m <= n <= |ins|
  {
    && Trip(ins, m, c) && (forall j :: m < j <= n ==> Undisturbed(ins, j, c))
    && t < ins[m - 1].obs.at + Cooldown(c.base, c.cap, State(ins, m - 1, c).breaker.level)
  }

  lemma BreakerStep(ins: seq<Input>, n: nat, c: Config, t: int)
    requires 0 < n <= |ins|
    ensures var before, after := State(ins, n - 1, c).breaker, State(ins, n, c).breaker;
            && (Trip(ins, n, c) ==> ins[n - 1].Saw?)
            && (Undisturbed(ins, n, c) <==> ins[n - 1].Saw? && !Trip(ins, n, c))
            && (ins[n - 1].Clear? ==> !Parked(after, t))
            && (Undisturbed(ins, n, c) ==> (Parked(after, t) <==> Parked(before, t)))
            && (Trip(ins, n, c) ==>
                  (Parked(after, t) <==> t < ins[n - 1].obs.at + Cooldown(c.base, c.cap, before.level)))
  {
    hide Felt, Condemns, Cooldown, Recent;
  }

  /** A path is never parked twice for one outage: between two condemnations it recovered. */
  lemma RecoversBetween(h: seq<Obs>, i: nat, j: nat, c: Config)
    requires i < j < |h|
    requires Condemns(PulseAfter(h, i, c), h[i].lost, c) && Condemns(PulseAfter(h, j, c), h[j].lost, c)
    ensures exists k :: i < k <= j && Recovered(h, k, c)
  {
    hide PulseAfter, Streak, Recovered, Condemned;
    var next: nat := i + 1;
    CondemningStreak(h, i, c);
    if forall k :: i < k <= j ==> !Recovered(h, k, c) {
      StaysDown(h, next, j, c);
    }
  }

  lemma CondemningStreak(h: seq<Obs>, i: nat, c: Config)
    requires i < |h| && Condemns(PulseAfter(h, i, c), h[i].lost, c)
    ensures Streak(h, i + 1, true) >= Max(1, c.failThreshold)
  {
    hide Condemned, Recovered;
    HealthIsHistory(h, i, c);
  }

  /** And conversely a path is down from such losses on until it recovers. */
  lemma StaysDown(h: seq<Obs>, i: nat, j: nat, c: Config)
    requires 0 < i <= j <= |h| && Streak(h, i, true) >= Max(1, c.failThreshold)
    requires forall k :: i <= k <= j ==> !Recovered(h, k, c)
    ensures PulseAfter(h, j, c).health == Down
  {
    hide Streak, Recovered, PulseAfter;
    HealthIsHistory(h, j, c);
    assert Condemned(h, j, c);
  }
}
