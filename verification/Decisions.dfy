/**
 How the frontend's routing decision reaches the backend: stamped on every probe, filtered
 by the probe read loop, kept newest-only, and applied by a worker behind a one-deep wake.
 */
module Decisions {
  import opened Words

  // ---- which sequence numbers are believable ---------------------------

  const SKEW_MS: nat := 7 * 24 * 3600 * 1000
  const HORIZON_MS: nat := 4102444800000

  function Shl16(x: nat): u64 { x * 65536 % TWO_64 }

  function Add64(a: u64, b: u64): u64 { (a + b) % TWO_64 }

  /** Whether a sequence could be the frontend's. `base` is the first one accepted, `elapsed`
      the monotonic nanoseconds since, `wallMs` this host's own clock. */
  predicate Plausible(num: u64, base: u64, elapsed: int64, wallMs: int64) {
    if num / 65536 > HORIZON_MS then false
    else if base == 0 then true
    else
      var ms := (if elapsed < 0 then 0 else elapsed) / 1_000_000;
      var anchored := Add64(base, Shl16(ms));
      var ceiling := if 0 < wallMs <= HORIZON_MS && Shl16(wallMs) > anchored then Shl16(wallMs) else anchored;
      num <= Add64(ceiling, Shl16(SKEW_MS))
  }

  /** Nanoseconds between two readings of a clock that only runs forward, never less than none nor more
      than fit. */
  function Elapsed(now: int, at: int): nat { Max(0, Min(now - at, MAX_INT64)) }

  /** The same, as a duration is computed: brought into 64 bits, and possibly negative. */
  function Since(now: int, at: int): int64 {
    if now - at < MIN_INT64 then MIN_INT64 else if now - at > MAX_INT64 then MAX_INT64 else now - at
  }

  function ElapsedMs(elapsed: int64): nat { (if elapsed < 0 then 0 else elapsed) / 1_000_000 }

  lemma Shl16Exact(ms: nat)
    requires ms <= 10_000_000_000_000
    ensures Shl16(ms) == ms * 65536
  {}

  /** The check never wraps: for any anchor it could itself have accepted, and any two clocks,
      it compares against the exact ceiling. */
  lemma PlausibleExact(num: u64, base: u64, elapsed: int64, wallMs: int64)
    requires base / 65536 <= HORIZON_MS
    ensures Plausible(num, base, elapsed, wallMs) <==>
            && num / 65536 <= HORIZON_MS
            && (base != 0 ==>
                  var wall := if 0 < wallMs <= HORIZON_MS then wallMs * 65536 else 0;
                  num <= Max(base + ElapsedMs(elapsed) * 65536, wall) + SKEW_MS * 65536)
  {
    assert ElapsedMs(elapsed) <= 9_223_372_036_854;
    Shl16Exact(ElapsedMs(elapsed));
    if 0 < wallMs <= HORIZON_MS {
      Shl16Exact(wallMs);
    }
    Shl16Exact(SKEW_MS);
    hide Shl16;
  }

  /** This host's wall clock can only widen the ceiling: no reading of it refuses a number the
      anchor alone admits. */
  lemma WallNeverNarrows(num: u64, base: u64, elapsed: int64, wallMs: int64)
    requires base / 65536 <= HORIZON_MS
    ensures Plausible(num, base, elapsed, 0) ==> Plausible(num, base, elapsed, wallMs)
  {
    PlausibleExact(num, base, elapsed, wallMs);
    PlausibleExact(num, base, elapsed, 0);
  }

  /** A number within the horizon that moved no faster than real time, give or take a week, is
      never refused, at that moment or later, whatever this host's clock says. */
  lemma HonestAccepted(num: u64, base: u64, elapsed: int64, later: int64, wallMs: int64)
    requires base / 65536 <= HORIZON_MS && num / 65536 <= HORIZON_MS
    requires num <= base + (ElapsedMs(elapsed) + SKEW_MS) * 65536 && elapsed <= later
    ensures Plausible(num, base, later, wallMs)
  {
    PlausibleExact(num, base, later, wallMs);
    assert ElapsedMs(elapsed) <= ElapsedMs(later);
  }

  /** What a frontend restarted `ms` milliseconds into the era sends is accepted whenever this host's
      clock is no more than the allowance behind it - even where the anchor alone, left by a
      process that had been up for long, would refuse it. */
  lemma RestartAccepted(num: u64, ms: nat, base: u64, elapsed: int64, wallMs: int64)
    requires base / 65536 <= HORIZON_MS && num / 65536 <= HORIZON_MS
    requires num <= ms * 65536 && 0 < wallMs <= HORIZON_MS && ms <= wallMs + SKEW_MS
    ensures Plausible(num, base, elapsed, wallMs)
  {
    PlausibleExact(num, base, elapsed, wallMs);
  }

  // ---- the agent -------------------------------------------------------

  datatype Decision = Decision(path: int, num: nat)

  datatype AgentState = AgentState(active: int, lastSeq: nat, pending: Decision, wake: bool)

  /** The reader's filter: a decision already in force, or older than it, goes no further. */
  predicate Fresh(s: AgentState, d: Decision) {
    !(d.num < s.lastSeq || (d.path == s.active && d.num <= s.lastSeq))
  }

  /** The queue keeps the newest; an equal number replaces. */
  function Queued(s: AgentState, d: Decision): AgentState {
    if d.num >= s.pending.num then s.(pending := d) else s
  }

  /** Whether the worker goes on to install routes for a decision. */
  predicate Installs(s: AgentState, d: Decision, known: set<int>) {
    d.path != 0 && d.num >= s.lastSeq && d.path != s.active && d.path in known
  }

  /** The worker's effect: record only what is already so, or what the kernel accepted. */
  function Applied(s: AgentState, d: Decision, known: set<int>, accepted: bool): AgentState {
    if d.path == 0 || d.num < s.lastSeq then s
    else if d.path == s.active || (d.path in known && accepted) then
      s.(active := d.path, lastSeq := Max(d.num, s.lastSeq))
    else s
  }

  class Agent {
    var active: int
    var lastSeq: nat
    var pending: Decision
    var wake: bool
    var seqBase: u64
    var seqBaseAt: int

    constructor ()
      ensures Valid() && State() == AgentState(0, 0, Decision(0, 0), false) && seqBase == 0
    {
      active, lastSeq, pending, wake := 0, 0, Decision(0, 0), false;
      seqBase, seqBaseAt := 0, 0;
    }

    /** Whatever was anchored was within the horizon. */
    predicate Valid()
      reads this
    {
      seqBase / 65536 <= HORIZON_MS
    }

    function State(): AgentState
      reads this
    {
      AgentState(active, lastSeq, pending, wake)
    }

    /** Records the first sequence accepted; later calls change nothing. */
    method AnchorDecisionSeq(num: u64, now: int)
      modifies this`seqBase, this`seqBaseAt
      ensures old(seqBase) == 0 ==> seqBase == num && seqBaseAt == now
      ensures old(seqBase) != 0 ==> seqBase == old(seqBase) && seqBaseAt == old(seqBaseAt)
    {
      if seqBase == 0 {
        seqBase, seqBaseAt := num, now;
      }
    }

    /** The probe read loop's side of one decision, read at `now` on the clock that only runs forward and
        `wallMs` on this host's. */
    method SetActivePath(path: int, num: u64, now: int, wallMs: int64)
      requires Valid()
      modifies this
      ensures Valid()
      ensures var d := Decision(path, num);
              State() == if path != 0 && Plausible(num, old(seqBase), Since(now, old(seqBaseAt)), wallMs)
                            && Fresh(old(State()), d)
                         then Queued(old(State()), d).(wake := true) else old(State())
      ensures active == old(active) && lastSeq == old(lastSeq)
      ensures seqBase == if old(seqBase) == 0 && path != 0 && num / 65536 <= HORIZON_MS then num else old(seqBase)
      ensures seqBaseAt == if old(seqBase) == 0 && path != 0 && num / 65536 <= HORIZON_MS then now else old(seqBaseAt)
      ensures var believed :=
                && path != 0 && num / 65536 <= HORIZON_MS
                && (old(seqBase) == 0
                    || num <= 65536 * SKEW_MS + Max(old(seqBase) + Elapsed(now, old(seqBaseAt)) / 1_000_000 * 65536,
                                                    if 0 < wallMs <= HORIZON_MS then wallMs * 65536 else 0));
              if believed && (num > old(lastSeq) || (num == old(lastSeq) && path != old(active)))
              then wake && pending == if num >= old(pending).num then Decision(path, num) else old(pending)
              else wake == old(wake) && pending == old(pending)
    {
      if path == 0 {
        return;
      }
      var base, baseAt := seqBase, seqBaseAt;
      PlausibleExact(num, base, Since(now, baseAt), wallMs);
      hide Plausible;
      if !Plausible(num, base, Since(now, baseAt), wallMs) {
        return;
      }
      if base == 0 {
        AnchorDecisionSeq(num, now);
      }
      var current, last := active, lastSeq;
      if num < last || (path == current && num <= last) {
        return;
      }
      if num >= pending.num {
        pending := Decision(path, num);
      }
      wake := true;
    }

    /** The worker's side: install, and record only afterwards. `accepted` is the kernel's answer,
        asked for at most once and only when an installation was due. */
    method ApplyDecision(path: int, num: nat, known: set<int>, accepted: bool) returns (asked: bool)
      modifies this
      ensures asked == Installs(old(State()), Decision(path, num), known)
      ensures State() == Applied(old(State()), Decision(path, num), known, accepted)
      ensures asked <==> path != 0 && num >= old(lastSeq) && path != old(active) && path in known
      ensures active == if asked && accepted then path else old(active)
      ensures lastSeq ==
              if path != 0 && num >= old(lastSeq) && (path == old(active) || (asked && accepted)) then num else old(lastSeq)
      ensures pending == old(pending) && wake == old(wake)
      ensures seqBase == old(seqBase) && seqBaseAt == old(seqBaseAt)
    {
      asked := false;
      if path == 0 {
        return;
      }
      var prev, last := active, lastSeq;
      if num < last {
        return;
      }
      if path == prev {
        if num > lastSeq {
          lastSeq := num;
        }
        return;
      }
      if path !in known {
        return;
      }
      asked := true;
      if !accepted {
        return;
      }
      active := path;
      if num > lastSeq {
        lastSeq := num;
      }
    }
  }

  // ---- both ends and the network ---------------------------------------

  datatype Reader = Listening | Checked(d: Decision) | Filtered(d: Decision) | Waking
  datatype Worker = Idle | Woken | Picked(d: Decision) | Installing(d: Decision, known: set<int>)

  /** The frontend's current decision, every pair it ever stamped on a probe, and the backend's
      state between any two of its locked sections. `seen` is the decision the worker last
      picked up and `failed` whether its installation failed. */
  datatype World = World(
    decided: Decision, adoptable: bool, stamped: set<Decision>,
    agent: AgentState, reader: Reader, worker: Worker,
    seen: Decision, failed: bool)

  datatype Step =
    | Switch(path: int)
    | Adopt(path: int)
    | Withdraw
    | Restart(seed: nat)
    | Receive(d: Decision)
    | Filter
    | Enqueue
    | Raise
    | Wake
    | Pick
    | Check(known: set<int>)
    | Install(accepted: bool)

  ghost predicate Init(w: World) {
    && w.decided == Decision(0, w.decided.num) && w.decided.num > 0
    && w.stamped == {w.decided} && w.adoptable
    && w.agent == AgentState(0, 0, Decision(0, 0), false)
    && w.reader == Listening && w.worker == Idle && w.seen == Decision(0, 0) && !w.failed
  }

  function Decide(w: World, d: Decision, adoptable: bool): World {
    w.(decided := d, adoptable := adoptable, stamped := w.stamped + {d})
  }

  predicate Enabled(w: World, step: Step) {
    match step
    case Switch(path) => path != 0
    case Adopt(path) => path != 0 && w.adoptable
    case Withdraw => true
    case Restart(seed) => seed > w.decided.num
    case Receive(d) => w.reader.Listening? && d in w.stamped && d.path != 0
    case Filter => w.reader.Checked?
    case Enqueue => w.reader.Filtered?
    case Raise => w.reader.Waking?
    case Wake => w.worker.Idle? && w.agent.wake
    case Pick => w.worker.Woken?
    case Check(_) => w.worker.Picked?
    case Install(_) => w.worker.Installing?
  }

  /** One step. Lost probes are those never received; repeated and late ones are received
      again or late; a probe the plausibility check refuses is as good as lost. */
  function Next(w: World, step: Step): World
    requires Enabled(w, step)
  {
    match step
    case Switch(path) => Decide(w, Decision(path, w.decided.num + 1), false)
    case Adopt(path) => Decide(w, Decision(path, w.decided.num), false)
    case Withdraw => Decide(w, Decision(0, w.decided.num), false)
    case Restart(seed) => Decide(w, Decision(0, seed), true)
    case Receive(d) => w.(reader := Checked(d))
    case Filter => w.(reader := if Fresh(w.agent, w.reader.d) then Filtered(w.reader.d) else Listening)
    case Enqueue => w.(agent := Queued(w.agent, w.reader.d), reader := Waking)
    case Raise => w.(agent := w.agent.(wake := true), reader := Listening)
    case Wake => w.(agent := w.agent.(wake := false), worker := Woken)
    case Pick =>
      w.(worker := if w.agent.pending.path != 0 then Picked(w.agent.pending) else Idle,
         seen := w.agent.pending, failed := false)
    case Check(known) =>
      if Installs(w.agent, w.worker.d, known) then w.(worker := Installing(w.worker.d, known))
      else w.(agent := Applied(w.agent, w.worker.d, known, false), worker := Idle,
              failed := w.worker.d.path !in known && w.worker.d.path != w.agent.active)
    case Install(accepted) =>
      w.(agent := Applied(w.agent, w.worker.d, w.worker.known, accepted), worker := Idle, failed := !accepted)
  }

  /** A decision the frontend really took, naming a path. */
  predicate Real(w: World, d: Decision) { d in w.stamped && d.path != 0 }

  /** The frontend: its numbers never fall, and a number never names two paths. */
  ghost predicate FrontSound(w: World) {
    && w.decided in w.stamped && w.decided.num > 0
    && (forall d :: d in w.stamped ==> d.num <= w.decided.num)
    && (forall d, e :: Real(w, d) && Real(w, e) && d.num == e.num ==> d == e)
    && (w.adoptable ==> w.decided.path == 0)
    && (w.adoptable || w.decided.path != 0 ==> forall d :: Real(w, d) && d.num == w.decided.num ==> d == w.decided)
  }

  /** Everything the backend holds is a real decision. */
  ghost predicate BackReal(w: World) {
    && (w.agent.active == 0 ==> w.agent.lastSeq == 0)
    && (w.agent.active != 0 ==> Real(w, Decision(w.agent.active, w.agent.lastSeq)))
    && (w.agent.pending == Decision(0, 0) || Real(w, w.agent.pending))
    && (w.reader.Checked? || w.reader.Filtered? ==> Real(w, w.reader.d))
    && (w.worker.Picked? || w.worker.Installing? ==> Real(w, w.worker.d) && w.worker.d == w.seen)
  }

  /** The queue and the worker keep step, and no queued decision is left without a wake. */
  ghost predicate Scheduled(w: World) {
    && (w.worker.Installing? ==> Installs(w.agent, w.worker.d, w.worker.known))
    && w.agent.lastSeq <= w.seen.num <= w.agent.pending.num
    && (w.worker.Idle? || w.worker.Woken? ==> w.agent.lastSeq == w.seen.num || w.failed)
    && (w.agent.pending != w.seen ==> w.agent.wake || w.reader.Waking? || w.worker.Woken?)
  }

  ghost predicate Inv(w: World) {
    FrontSound(w) && BackReal(w) && Scheduled(w)
  }

  lemma InitHolds(w: World)
    requires Init(w)
    ensures Inv(w)
  {}

  lemma FrontKeeps(w: World, step: Step)
    requires FrontSound(w) && Enabled(w, step)
    ensures FrontSound(Next(w, step))
    ensures w.stamped <= Next(w, step).stamped
    ensures w.decided.num <= Next(w, step).decided.num
  {
    var v := Next(w, step);
    if v.decided != w.decided {
      assert v.stamped == w.stamped + {v.decided};
    }
  }

  predicate ByFrontend(step: Step) { step.Switch? || step.Adopt? || step.Withdraw? || step.Restart? }

  predicate ByReader(step: Step) { step.Receive? || step.Filter? || step.Enqueue? || step.Raise? }

  predicate ByWorker(step: Step) { step.Wake? || step.Pick? || step.Check? || step.Install? }

  lemma FrontendKeeps(w: World, step: Step)
    requires BackReal(w) && Scheduled(w) && Enabled(w, step) && ByFrontend(step)
    ensures BackReal(Next(w, step)) && Scheduled(Next(w, step))
  {
    var v := Next(w, step);
    assert v == w.(decided := v.decided, adoptable := v.adoptable, stamped := w.stamped + {v.decided});
    assert forall d :: Real(w, d) ==> Real(v, d);
    hide Enabled, Next, Installs;
  }

  lemma ReaderKeeps(w: World, step: Step)
    requires BackReal(w) && Scheduled(w) && Enabled(w, step) && ByReader(step)
    ensures BackReal(Next(w, step)) && Scheduled(Next(w, step))
  {
    assert Next(w, step).stamped == w.stamped;
  }

  lemma WorkerKeeps(w: World, step: Step)
    requires BackReal(w) && Scheduled(w) && Enabled(w, step) && ByWorker(step)
    ensures BackReal(Next(w, step)) && Scheduled(Next(w, step))
  {
    if step.Wake? || step.Pick? {
      hide Installs, Applied;
    } else if step.Check? {
    } else {
    }
  }

  lemma StepKeeps(w: World, step: Step)
    requires Inv(w) && Enabled(w, step)
    ensures Inv(Next(w, step))
  {
    hide FrontSound, BackReal, Scheduled, Next;
    FrontKeeps(w, step);
    if ByFrontend(step) {
      FrontendKeeps(w, step);
    } else if ByReader(step) {
      ReaderKeeps(w, step);
    } else {
      WorkerKeeps(w, step);
    }
  }

  /** A run from startup: the worlds, and the steps between them. */
  ghost predicate Run(ws: seq<World>, steps: seq<Step>) {
    && |ws| == |steps| + 1 && Init(ws[0])
    && forall i :: 0 <= i < |steps| ==> Enabled(ws[i], steps[i]) && ws[i + 1] == Next(ws[i], steps[i])
  }

  lemma {:induction false} RunHolds(ws: seq<World>, steps: seq<Step>, i: nat)
    requires Run(ws, steps) && i < |ws|
    ensures Inv(ws[i])
  {
    hide Inv, Next, Init;
    if i == 0 {
      InitHolds(ws[0]);
    } else {
      RunHolds(ws, steps, i - 1);
      StepKeeps(ws[i - 1], steps[i - 1]);
    }
  }

  // ---- what the protocol promises --------------------------------------

  lemma SequenceOnward(w: World, step: Step)
    requires Enabled(w, step)
    ensures w.agent.lastSeq <= Next(w, step).agent.lastSeq
  {}

  lemma {:induction false} NeverBack(ws: seq<World>, steps: seq<Step>, i: nat, j: nat)
    requires Run(ws, steps) && i <= j < |ws|
    ensures ws[i].agent.lastSeq <= ws[j].agent.lastSeq
    decreases j
  {
    hide Init, Next, Enabled;
    if i < j {
      NeverBack(ws, steps, i, j - 1);
      SequenceOnward(ws[j - 1], steps[j - 1]);
    }
  }

  /** Agreement: in every state of every run what the backend records is a decision the frontend
      really took, and its sequence has never gone back. */
  lemma Agreement(ws: seq<World>, steps: seq<Step>, i: nat, j: nat)
    requires Run(ws, steps) && i <= j < |ws|
    ensures var a := ws[j].agent;
            if a.active == 0 then a.lastSeq == 0 else Decision(a.active, a.lastSeq) in ws[j].stamped
    ensures ws[i].agent.lastSeq <= ws[j].agent.lastSeq
  {
    hide Run, Init, Next, Enabled, FrontSound, Scheduled;
    RunHolds(ws, steps, j);
    NeverBack(ws, steps, i, j);
  }

  /** No wakeup is lost: a queued decision not yet picked up has a wake pending, about to be sent,
      or just taken. */
  lemma NoLostWakeup(ws: seq<World>, steps: seq<Step>, i: nat)
    requires Run(ws, steps) && i < |ws|
    ensures var w := ws[i];
            w.agent.pending != w.seen ==> w.agent.wake || w.reader.Waking? || w.worker.Woken?
  {
    RunHolds(ws, steps, i);
  }

  /** Whether the backend is exactly where the frontend's newest decision puts it. */
  predicate InForce(w: World) {
    w.decided.path != 0 && w.agent.active == w.decided.path && w.agent.lastSeq == w.decided.num
  }

  /** Once the newest decision is in force nothing in flight changes it - no late, repeated or
      reordered probe, at any stage - until the frontend decides again. */
  lemma NewestStays(ws: seq<World>, steps: seq<Step>, i: nat)
    requires Run(ws, steps) && i < |steps| && InForce(ws[i]) && ws[i + 1].decided == ws[i].decided
    ensures InForce(ws[i + 1])
    ensures !steps[i].Install?
  {
    RunHolds(ws, steps, i);
    var w := ws[i];
    if w.worker.Picked? || w.worker.Installing? {
      assert Real(w, w.worker.d) && w.worker.d.num <= w.decided.num;
      assert Real(w, w.decided);
    }
  }

  /** When everything has come to rest with the newest decision queued, it is in force - unless
      its installation failed, which was never recorded as done. */
  lemma RestsInForce(ws: seq<World>, steps: seq<Step>, i: nat)
    requires Run(ws, steps) && i < |ws|
    requires ws[i].reader.Listening? && ws[i].worker.Idle? && !ws[i].agent.wake
    requires ws[i].decided.path != 0 && ws[i].agent.pending == ws[i].decided
    ensures InForce(ws[i]) || ws[i].failed
  {
    RunHolds(ws, steps, i);
    var w := ws[i];
    assert w.seen == w.decided;
    if !w.failed {
      assert Real(w, Decision(w.agent.active, w.agent.lastSeq)) && Real(w, w.decided);
    }
  }

  /** A failed installation is retried: the next probe carrying the newest decision passes the
      filter, is queued, and reaches the kernel again. */
  lemma FailureIsRetried(ws: seq<World>, steps: seq<Step>, i: nat, known: set<int>)
    requires Run(ws, steps) && i < |ws|
    requires ws[i].decided.path in known && ws[i].decided.path != 0 && !InForce(ws[i])
    ensures Fresh(ws[i].agent, ws[i].decided)
    ensures Queued(ws[i].agent, ws[i].decided).pending == ws[i].decided
    ensures ws[i].decided.path != ws[i].agent.active ==> Installs(ws[i].agent, ws[i].decided, known)
    ensures var a := Applied(ws[i].agent, ws[i].decided, known, true);
            Decision(a.active, a.lastSeq) == ws[i].decided
  {
    RunHolds(ws, steps, i);
    var w := ws[i];
    if w.agent.active != 0 {
      assert Real(w, Decision(w.agent.active, w.agent.lastSeq));
      assert Real(w, w.decided);
    }
    assert w.agent.pending.num <= w.decided.num;
  }

  /** Why a restarted frontend must seed above its predecessor: another path under the number in
      force gets through every check to the kernel unless something newer is queued, and under a
      lower number it gets through none, whatever is queued. */
  lemma OnlyEqualNumbersRewind(s: AgentState, d: Decision, known: set<int>)
    requires d.path != 0 && d.path != s.active && d.path in known && d.num <= s.lastSeq
    ensures (Fresh(s, d) && Queued(s, d).pending == d && Applied(s, d, known, true).active == d.path)
            <==> d.num == s.lastSeq && s.pending.num <= d.num
    ensures d.num < s.lastSeq ==> !Fresh(s, d) && Applied(s, d, known, true) == s
  {}
}
