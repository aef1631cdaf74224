/**
 The engine's route writers, interleaved lock by lock: the decision loop (startup, `evaluate`,
 `reconcileRouting`) and the operator's side (`Reconfigure`, `Revert`), over the kernel's
 main-table route to the backend and the control-channel route beside it.
 */
module EngineLocks {

  datatype Holder = Free | ByLoop | ByAdmin

  /** Where the decision loop's goroutine is. Paths and modes carried along are what it has read. */
  datatype Loop =
    | Unstarted
    | BootWaiting | BootApplying | BootAdopting
    | Idle
    | Chosen(path: int) | Checking(path: int)
    | Steering(path: int, armed: bool) | Routing(path: int, armed: bool) | Recording(path: int, armed: bool)
    | Looking | MendingControl(path: int, armed: bool) | MendingMain(path: int, armed: bool)

  /** Where the one goroutine inside `Reconfigure` or `Revert` is; any others wait at the door. */
  datatype Admin =
    | Resting
    | Stopping(mode: bool) | Swapping(mode: bool) | Swapped | Reapplying | Seeding
    | Reasserting(path: int, armed: bool) | Rerouting(path: int, armed: bool) | Reapplied
    | RevertWaiting | RevertLocked | Latched | Kept | TornDown | Saved

  /** `armed` is the runner in use and `reverted` the latch in memory; `savedArmed` and
      `savedLatch` their copies on disk. A path of 0 is none. `synced` records that an armed
      installation succeeded and that since then nothing removed the route from outside, disarmed
      the engine, reverted it or restarted it. */
  datatype World = World(
    active: int, num: nat, reverted: bool, armed: bool, savedArmed: bool, savedLatch: bool,
    main: int, control: int,
    reconfMu: Holder, applyMu: Holder, run: Loop, admin: Admin, synced: bool)

  datatype Step =
    // startup
    | BootTake | BootLock | BootSeed(path: int, ok: bool) | BootAdopt(ok: bool)
    // evaluate
    | Choose(path: int) | EvalLock | Recheck | Steer(ok: bool) | Install(ok: bool) | Commit
    // reconcileRouting
    | ReconcileLock | Look | MendControl(ok: bool) | Mend(ok: bool)
    // Reconfigure
    | Save(mode: bool) | SwapLock | Swap | ClearLatch(ok: bool) | ReapplyLock | Seed(path: int, ok: bool)
    | Resteer(ok: bool) | Reroute(ok: bool) | Done
    // Revert
    | RevertTake | RevertLock | Latch | KeepLatch(ok: bool) | TearDown(mainGone: bool, controlGone: bool)
    | SaveObserve(ok: bool) | Finish
    // everything else
    | LoseMain | LoseControl | Crash

  predicate Enabled(w: World, step: Step) {
    match step
    case BootTake => w.run.Unstarted? && w.reconfMu.Free?
    case BootLock => w.run.BootWaiting? && w.applyMu.Free?
    case BootSeed(_, _) => w.run.BootApplying?
    case BootAdopt(_) => w.run.BootAdopting?
    case Choose(path) => w.run.Idle? && !w.reverted && path != 0 && path != w.active
    case EvalLock => w.run.Chosen? && w.applyMu.Free?
    case Recheck => w.run.Checking?
    case Steer(_) => w.run.Steering?
    case Install(_) => w.run.Routing?
    case Commit => w.run.Recording?
    case ReconcileLock => w.run.Idle? && w.applyMu.Free?
    case Look => w.run.Looking?
    case MendControl(_) => w.run.MendingControl?
    case Mend(_) => w.run.MendingMain?
    case Save(_) => w.admin.Resting? && w.reconfMu.Free?
    case SwapLock => w.admin.Stopping? && w.applyMu.Free?
    case Swap => w.admin.Swapping?
    case ClearLatch(_) => w.admin.Swapped?
    case ReapplyLock => w.admin.Reapplying? && w.applyMu.Free?
    case Seed(_, _) => w.admin.Seeding?
    case Resteer(_) => w.admin.Reasserting?
    case Reroute(_) => w.admin.Rerouting?
    case Done => w.admin.Reapplied?
    case RevertTake => w.admin.Resting? && w.reconfMu.Free?
    case RevertLock => w.admin.RevertWaiting? && w.applyMu.Free?
    case Latch => w.admin.RevertLocked?
    case KeepLatch(_) => w.admin.Latched?
    case TearDown(_, _) => w.admin.Kept?
    case SaveObserve(_) => w.admin.TornDown?
    case Finish => w.admin.Saved?
    case LoseMain => true
    case LoseControl => true
    case Crash => true
  }

  function Kernel(was: int, path: int, ok: bool): int { if ok then path else was }

  predicate LoopStep(step: Step) {
    step.BootTake? || step.BootLock? || step.BootSeed? || step.BootAdopt? || step.Choose? || step.EvalLock?
    || step.Recheck? || step.Steer? || step.Install? || step.Commit? || step.ReconcileLock? || step.Look?
    || step.MendControl? || step.Mend?
  }

  function LoopNext(w: World, step: Step): (v: World)
    requires Enabled(w, step) && LoopStep(step)
    ensures v.admin == w.admin && v.savedArmed == w.savedArmed
  {
    match step
    case BootTake => if w.reverted then w.(run := Idle) else w.(run := BootWaiting, reconfMu := ByLoop)
    case BootLock => w.(run := BootApplying, applyMu := ByLoop)
    case BootSeed(path, ok) =>
      // No path is active yet, so only the control-channel route is seeded.
      w.(run := BootAdopting, applyMu := Free, control := Kernel(w.control, path, ok && path != 0))
    case BootAdopt(ok) =>
      if ok && w.main != 0 then w.(run := Idle, reconfMu := Free, active := w.main, synced := w.armed)
      else w.(run := Idle, reconfMu := Free)
    case Choose(path) => w.(run := Chosen(path))
    case EvalLock => w.(run := Checking(w.run.path), applyMu := ByLoop)
    case Recheck =>
      if w.reverted then w.(run := Idle, applyMu := Free) else w.(run := Steering(w.run.path, w.armed))
    case Steer(ok) =>
      w.(run := Routing(w.run.path, w.run.armed), control := Kernel(w.control, w.run.path, ok))
    case Install(ok) =>
      if !w.run.armed then w.(run := Recording(w.run.path, false))
      else if ok then w.(run := Recording(w.run.path, true), main := w.run.path, synced := true)
      else w.(run := Idle, applyMu := Free)
    case Commit =>
      w.(run := Idle, applyMu := Free, active := w.run.path, num := w.num + 1)
    case ReconcileLock => w.(run := Looking, applyMu := ByLoop)
    case Look =>
      if w.reverted || w.active == 0 then w.(run := Idle, applyMu := Free)
      else w.(run := MendingControl(w.active, w.armed))
    case MendControl(ok) =>
      w.(run := MendingMain(w.run.path, w.run.armed), control := Kernel(w.control, w.run.path, ok))
    case Mend(ok) =>
      if w.run.armed && ok then w.(run := Idle, applyMu := Free, main := w.run.path, synced := true)
      else w.(run := Idle, applyMu := Free)
  }

  predicate AdminStep(step: Step) { !LoopStep(step) && !OutsideStep(step) }

  function AdminNext(w: World, step: Step): (v: World)
    requires Enabled(w, step) && AdminStep(step)
    ensures v.run == w.run && v.num == w.num
  {
    match step
    case Save(mode) => w.(admin := Stopping(mode), reconfMu := ByAdmin, savedArmed := mode)
    case SwapLock => w.(admin := Swapping(w.admin.mode), applyMu := ByAdmin)
    case Swap =>
      w.(admin := Swapped, applyMu := Free, armed := w.admin.mode, reverted := false,
         synced := w.synced && w.admin.mode)
    case ClearLatch(ok) => w.(admin := Reapplying, savedLatch := w.savedLatch && !ok)
    case ReapplyLock => w.(admin := Seeding, applyMu := ByAdmin)
    case Seed(path, ok) =>
      var seeded := w.(control := Kernel(w.control, path, ok && path != 0 && w.active == 0));
      if w.active == 0 then seeded.(admin := Reapplied, applyMu := Free)
      else seeded.(admin := Reasserting(w.active, w.armed))
    case Resteer(ok) =>
      w.(admin := Rerouting(w.admin.path, w.admin.armed), control := Kernel(w.control, w.admin.path, ok))
    case Reroute(ok) =>
      if w.admin.armed && ok then w.(admin := Reapplied, applyMu := Free, main := w.admin.path, synced := true)
      else w.(admin := Reapplied, applyMu := Free)
    case Done => w.(admin := Resting, reconfMu := Free)
    case RevertTake => w.(admin := RevertWaiting, reconfMu := ByAdmin)
    case RevertLock => w.(admin := RevertLocked, applyMu := ByAdmin)
    case Latch => w.(admin := Latched, reverted := true, synced := false)
    case KeepLatch(ok) => w.(admin := Kept, savedLatch := w.savedLatch || ok)
    case TearDown(mainGone, controlGone) =>
      w.(admin := TornDown, main := Kernel(w.main, 0, mainGone), control := Kernel(w.control, 0, controlGone))
    case SaveObserve(ok) => w.(admin := Saved, savedArmed := w.savedArmed && !ok)
    case Finish =>
      w.(admin := Resting, reconfMu := Free, applyMu := Free, armed := false, active := 0)
  }

  predicate OutsideStep(step: Step) { step.LoseMain? || step.LoseControl? || step.Crash? }

  /** A crash keeps the kernel and the disk; the next process starts from the disk. */
  function OutsideNext(w: World, step: Step): World
    requires OutsideStep(step)
  {
    match step
    case LoseMain => w.(main := 0, synced := false)
    case LoseControl => w.(control := 0)
    case Crash =>
      w.(active := 0, reverted := w.savedLatch, armed := w.savedArmed,
         reconfMu := Free, applyMu := Free, run := Unstarted, admin := Resting, synced := false)
  }

  function Next(w: World, step: Step): World
    requires Enabled(w, step)
  {
    if LoopStep(step) then LoopNext(w, step)
    else if OutsideStep(step) then OutsideNext(w, step)
    else AdminNext(w, step)
  }

  ghost predicate Init(w: World) {
    && w.active == 0 && w.run == Unstarted && w.admin == Resting
    && w.reconfMu == Free && w.applyMu == Free && !w.synced
    && w.reverted == w.savedLatch && w.armed == w.savedArmed
  }

  // ---- the invariant ---------------------------------------------------

  predicate LoopHoldsApply(r: Loop) {
    r.BootApplying? || r.Checking? || r.Steering? || r.Routing? || r.Recording?
    || r.Looking? || r.MendingControl? || r.MendingMain?
  }

  predicate LoopHoldsReconf(r: Loop) { r.BootWaiting? || r.BootApplying? || r.BootAdopting? }

  predicate AdminHoldsApply(a: Admin) {
    a.Swapping? || a.Seeding? || a.Reasserting? || a.Rerouting?
    || a.RevertLocked? || a.Latched? || a.Kept? || a.TornDown? || a.Saved?
  }

  predicate Reapplies(a: Admin) {
    a.Swapped? || a.Reapplying? || a.Seeding? || a.Reasserting? || a.Rerouting? || a.Reapplied?
  }

  predicate Reverts(a: Admin) { a.Latched? || a.Kept? || a.TornDown? || a.Saved? }

  /** Each lock is held by exactly who is inside it. */
  ghost predicate Locked(w: World) {
    && (w.applyMu.ByLoop? <==> LoopHoldsApply(w.run))
    && (w.applyMu.ByAdmin? <==> AdminHoldsApply(w.admin))
    && (w.reconfMu.ByLoop? <==> LoopHoldsReconf(w.run))
    && (w.reconfMu.ByAdmin? <==> !w.admin.Resting?)
  }

  /** What a goroutine read under the apply lock is still so while it holds it. */
  ghost predicate ReadsCurrent(w: World) {
    && (w.run.Chosen? || w.run.Checking? ==> w.run.path != 0)
    && (w.run.Steering? || w.run.Routing? || w.run.Recording? ==>
          w.run.path != 0 && w.run.armed == w.armed && !w.reverted)
    && (w.run.MendingControl? || w.run.MendingMain? ==>
          w.run.path == w.active != 0 && w.run.armed == w.armed && !w.reverted)
    && (w.admin.Reasserting? || w.admin.Rerouting? ==>
          w.admin.path == w.active != 0 && w.admin.armed == w.armed)
    && (Reapplies(w.admin) ==> !w.reverted)
    && (Reverts(w.admin) ==> w.reverted)
    && (w.run.Unstarted? || LoopHoldsReconf(w.run) ==> w.active == 0)
    && (LoopHoldsReconf(w.run) ==> !w.reverted)
  }

  /** While synced the route is the active path's, or the one about to be recorded as such. */
  ghost predicate Agrees(w: World) {
    w.synced ==>
      && w.armed && !w.reverted && w.main != 0
      && w.main == if w.run.Recording? then w.run.path else w.active
  }

  ghost predicate Inv(w: World) { Locked(w) && ReadsCurrent(w) && Agrees(w) }

  predicate EvaluateStep(step: Step) {
    step.Choose? || step.EvalLock? || step.Recheck? || step.Steer? || step.Install? || step.Commit?
  }

  lemma EvaluateKeeps(w: World, step: Step)
    requires Inv(w) && Enabled(w, step) && LoopStep(step) && EvaluateStep(step)
    ensures Inv(Next(w, step))
  {}

  lemma LoopKeeps(w: World, step: Step)
    requires Inv(w) && Enabled(w, step) && LoopStep(step) && !EvaluateStep(step)
    ensures Inv(Next(w, step))
  {}

  lemma AdminKeeps(w: World, step: Step)
    requires Inv(w) && Enabled(w, step) && AdminStep(step)
    ensures Inv(Next(w, step))
  {}

  lemma OutsideKeeps(w: World, step: Step)
    requires Inv(w) && Enabled(w, step) && OutsideStep(step)
    ensures Inv(Next(w, step))
  {}

  ghost predicate Run(ws: seq<World>, steps: seq<Step>) {
    && |ws| == |steps| + 1 && Init(ws[0])
    && forall i :: 0 <= i < |steps| ==> Enabled(ws[i], steps[i]) && ws[i + 1] == Next(ws[i], steps[i])
  }

  lemma StepKeeps(w: World, step: Step)
    requires Inv(w) && Enabled(w, step)
    ensures Inv(Next(w, step))
  {
    hide Inv, Next, Enabled, LoopStep, OutsideStep, EvaluateStep;
    if LoopStep(step) && EvaluateStep(step) {
      EvaluateKeeps(w, step);
    } else if LoopStep(step) {
      LoopKeeps(w, step);
    } else if OutsideStep(step) {
      OutsideKeeps(w, step);
    } else {
      assert AdminStep(step);
      AdminKeeps(w, step);
    }
  }

  lemma {:induction false} RunHolds(ws: seq<World>, steps: seq<Step>, i: nat)
    requires Run(ws, steps) && i < |ws|
    ensures Inv(ws[i])
  {
    if i > 0 {
      hide Inv, Next, Enabled;
      RunHolds(ws, steps, i - 1);
      StepKeeps(ws[i - 1], steps[i - 1]);
    }
  }

  // ---- what the locks are for ------------------------------------------

  /** Whenever no one is inside the apply lock, the main route is the recorded active path's - from
      any armed installation until an outside loss, a disarming, a revert or a restart, however
      saves, failovers, repairs and failed installations interleave. */
  lemma RouteAgrees(ws: seq<World>, steps: seq<Step>, i: nat)
    requires Run(ws, steps) && i < |ws| && ws[i].synced && ws[i].applyMu == Free
    ensures ws[i].main == ws[i].active != 0
  {
    hide Run;
    RunHolds(ws, steps, i);
  }

  /** The steps that end the guarantee. */
  predicate Unsyncs(step: Step, w: World) {
    step.LoseMain? || step.Crash? || step.Latch? || (step.Swap? && w.admin.Swapping? && !w.admin.mode)
  }

  /** The steps that begin it: an armed installation the kernel accepts. */
  predicate Syncs(step: Step, w: World) {
    || (step == Install(true) && w.run.Routing? && w.run.armed)
    || (step == Mend(true) && w.run.MendingMain? && w.run.armed)
    || (step == Reroute(true) && w.admin.Rerouting? && w.admin.armed)
  }

  /** So the guarantee reaches from any such installation to any later moment with none of the
      steps that end it in between. */
  lemma {:induction false} SyncedSince(ws: seq<World>, steps: seq<Step>, i: nat, j: nat)
    requires Run(ws, steps) && i < j < |ws| && Syncs(steps[i], ws[i])
    requires forall k :: i < k < j ==> !Unsyncs(steps[k], ws[k])
    ensures ws[j].synced
    ensures ws[j].applyMu == Free ==> ws[j].main == ws[j].active != 0
    decreases j
  {
    if j > i + 1 {
      SyncedSince(ws, steps, i, j - 1);
      RunHolds(ws, steps, j - 1);
      KeepsSynced(ws[j - 1], steps[j - 1]);
    } else {
      BeginsSynced(ws[i], steps[i]);
    }
    if ws[j].applyMu == Free {
      RouteAgrees(ws, steps, j);
    }
  }

  lemma BeginsSynced(w: World, step: Step)
    requires Enabled(w, step) && Syncs(step, w)
    ensures Next(w, step).synced
  {}

  lemma KeepsSynced(w: World, step: Step)
    requires Inv(w) && Enabled(w, step) && w.synced && !Unsyncs(step, w)
    ensures Next(w, step).synced
  {}

  /** While the latch is set nothing is installed: from the moment a revert latches until the next
      saved configuration swaps in, every step leaves either route as it is or takes it away. */
  lemma LatchHolds(w: World, step: Step)
    requires Inv(w) && Enabled(w, step) && w.reverted
    ensures var v := Next(w, step); (v.main == w.main || v.main == 0) && (v.control == w.control || v.control == 0)
    ensures !step.Swap? && !step.Crash? ==> Next(w, step).reverted
    ensures w.savedLatch && !step.Swap? ==> Next(w, step).reverted && (!step.ClearLatch? ==> Next(w, step).savedLatch)
  {}

  /** Once the latch is in memory and on disk, and the routes are gone, all of it stays so until an
      operator saves settings again. */
  lemma {:induction false} GoneStays(ws: seq<World>, steps: seq<Step>, i: nat, j: nat)
    requires Run(ws, steps) && i <= j < |ws|
    requires ws[i].reverted && ws[i].savedLatch
    requires forall k :: i <= k < j ==> !steps[k].Swap?
    ensures ws[j].reverted && ws[j].savedLatch
    ensures ws[i].main == 0 && ws[i].control == 0 ==> ws[j].main == 0 && ws[j].control == 0
    ensures ws[i].active == 0 ==> ws[j].active == 0
    decreases j
  {
    if i < j {
      GoneStays(ws, steps, i, j - 1);
      RunHolds(ws, steps, j - 1);
      LatchHolds(ws[j - 1], steps[j - 1]);
      LatchRecordsNone(ws[j - 1], steps[j - 1]);
      assert !steps[j - 1].ClearLatch?;
    }
  }

  lemma LatchRecordsNone(w: World, step: Step)
    requires Inv(w) && Enabled(w, step) && w.reverted
    ensures Next(w, step).active in {w.active, 0}
  {
    hide Next, WritesActive;
    StillStep(w, step);
    if WritesActive(step) {
      ActiveWritten(w, step);
    }
  }

  lemma ActiveWritten(w: World, step: Step)
    requires Inv(w) && Enabled(w, step) && w.reverted && WritesActive(step)
    ensures Next(w, step).active == 0
  {}

  lemma Latches(w: World, step: Step)
    requires Inv(w) && Enabled(w, step)
    ensures step == KeepLatch(true) ==> Next(w, step).reverted && Next(w, step).savedLatch
    ensures step == TearDown(true, true) ==> Next(w, step).main == 0 && Next(w, step).control == 0
    ensures step.Finish? ==> Next(w, step).active == 0 && !Next(w, step).armed
  {}

  /** A revert sticks, restarts included: from the moment it wrote its latch the engine is reverted, from
      the moment it took the routes away they are gone, and from its end nothing is recorded as active,
      until an operator's saved settings swap in. */
  lemma RevertSticks(ws: seq<World>, steps: seq<Step>, a: nat, j: nat)
    requires Run(ws, steps) && a < j < |ws| && steps[a] == KeepLatch(true)
    requires forall k :: a < k < j ==> !steps[k].Swap?
    ensures ws[j].reverted
    ensures forall b :: a < b < j && steps[b] == TearDown(true, true) ==> ws[j].main == 0 && ws[j].control == 0
    ensures forall b :: a < b < j && steps[b].Finish? ==> ws[j].active == 0
  {
    hide Inv, Next, Enabled;
    RunHolds(ws, steps, a);
    Latches(ws[a], steps[a]);
    GoneStays(ws, steps, a + 1, j);
    forall b | a < b < j
      ensures steps[b] == TearDown(true, true) ==> ws[j].main == 0 && ws[j].control == 0
      ensures steps[b].Finish? ==> ws[j].active == 0
    {
      GoneStays(ws, steps, a + 1, b);
      RunHolds(ws, steps, b);
      Latches(ws[b], steps[b]);
      GoneStays(ws, steps, a + 1, b + 1);
      GoneStays(ws, steps, b + 1, j);
    }
  }

  // ---- who writes what -------------------------------------------------

  predicate WritesLatch(step: Step) { step in {KeepLatch(true), ClearLatch(true)} }

  predicate WritesMode(step: Step) { step.Save? || step == SaveObserve(true) }

  predicate WritesActive(step: Step) { step.Commit? || step.Finish? || step == BootAdopt(true) || step.Crash? }

  predicate WritesMain(step: Step) {
    step in {Install(true), Mend(true), Reroute(true), LoseMain} || (step.TearDown? && step.mainGone)
  }

  predicate WritesControl(step: Step) {
    || step in {Steer(true), MendControl(true), Resteer(true), LoseControl} || (step.TearDown? && step.controlGone)
    || ((step.BootSeed? || step.Seed?) && step.ok)
  }

  /** Over any stretch of a run a field stands still unless one of the few steps that may write it is
      taken, the two copies on disk included. */
  lemma {:induction false} StandsStill(ws: seq<World>, steps: seq<Step>, i: nat, j: nat)
    requires Run(ws, steps) && i <= j < |ws|
    ensures (forall k :: i <= k < j ==> steps[k] !in {KeepLatch(true), ClearLatch(true)}) ==>
              ws[j].savedLatch == ws[i].savedLatch
    ensures (forall k :: i <= k < j ==> !steps[k].Save? && steps[k] != SaveObserve(true)) ==>
              ws[j].savedArmed == ws[i].savedArmed
    ensures (forall k :: i <= k < j ==> !steps[k].Latch? && !steps[k].Swap? && !steps[k].Crash?) ==>
              ws[j].reverted == ws[i].reverted
    ensures (forall k :: i <= k < j ==> !steps[k].Finish? && !steps[k].Swap? && !steps[k].Crash?) ==>
              ws[j].armed == ws[i].armed
    ensures (forall k :: i <= k < j ==> !steps[k].Commit?) ==> ws[j].num == ws[i].num
    ensures (forall k :: i <= k < j ==> !WritesActive(steps[k])) ==> ws[j].active == ws[i].active
    ensures (forall k :: i <= k < j ==> !WritesMain(steps[k])) ==> ws[j].main == ws[i].main
    ensures (forall k :: i <= k < j ==> !WritesControl(steps[k])) ==> ws[j].control == ws[i].control
    decreases j
  {
    hide Next, Enabled, WritesActive, WritesMain, WritesControl;
    if i < j {
      StandsStill(ws, steps, i, j - 1);
      StillStep(ws[j - 1], steps[j - 1]);
    }
  }

  /** What one step may do to each field. */
  predicate Still(w: World, step: Step, v: World) {
    && (step !in {KeepLatch(true), ClearLatch(true)} ==> v.savedLatch == w.savedLatch)
    && (!step.Save? && step != SaveObserve(true) ==> v.savedArmed == w.savedArmed)
    && (!step.Latch? && !step.Swap? && !step.Crash? ==> v.reverted == w.reverted)
    && (!step.Finish? && !step.Swap? && !step.Crash? ==> v.armed == w.armed)
    && (!step.Commit? ==> v.num == w.num)
    && (!WritesActive(step) ==> v.active == w.active)
    && (!WritesMain(step) ==> v.main == w.main)
    && (!WritesControl(step) ==> v.control == w.control)
  }

  lemma EvaluateStill(w: World, step: Step)
    requires Enabled(w, step) && LoopStep(step) && EvaluateStep(step)
    ensures Still(w, step, Next(w, step))
  {}

  lemma LoopStill(w: World, step: Step)
    requires Enabled(w, step) && LoopStep(step) && !EvaluateStep(step)
    ensures Still(w, step, Next(w, step))
  {}

  predicate RevertStep(step: Step) {
    step.RevertTake? || step.RevertLock? || step.Latch? || step.KeepLatch? || step.TearDown? || step.SaveObserve?
    || step.Finish?
  }

  lemma RevertStill(w: World, step: Step)
    requires Enabled(w, step) && AdminStep(step) && RevertStep(step)
    ensures Still(w, step, Next(w, step))
  {}

  lemma ReconfigureStill(w: World, step: Step)
    requires Enabled(w, step) && AdminStep(step) && !RevertStep(step)
    ensures Still(w, step, Next(w, step))
  {}

  lemma OutsideStill(w: World, step: Step)
    requires Enabled(w, step) && OutsideStep(step)
    ensures Still(w, step, Next(w, step))
  {}

  lemma StillStep(w: World, step: Step)
    requires Enabled(w, step)
    ensures Still(w, step, Next(w, step))
  {
    hide Still, Next, Enabled, LoopStep, OutsideStep, EvaluateStep, RevertStep;
    if LoopStep(step) {
      if EvaluateStep(step) { EvaluateStill(w, step); } else { LoopStill(w, step); }
    } else if OutsideStep(step) {
      OutsideStill(w, step);
    } else {
      assert AdminStep(step);
      if RevertStep(step) { RevertStill(w, step); } else { ReconfigureStill(w, step); }
    }
  }

  /** What a process finds on disk when it starts is what was last written there: a latch kept by a
      revert or cleared by saved settings, and the mode last saved, or observe after a revert. */
  lemma RestartRemembers(ws: seq<World>, steps: seq<Step>, a: nat, c: nat)
    requires Run(ws, steps) && a < c < |steps| && steps[c].Crash?
    ensures WritesLatch(steps[a]) && (forall k :: a < k < c ==> !WritesLatch(steps[k])) ==>
              ws[c + 1].reverted == (steps[a] == KeepLatch(true))
    ensures WritesMode(steps[a]) && (forall k :: a < k < c ==> !WritesMode(steps[k])) ==>
              ws[c + 1].armed == (steps[a] == Save(true))
  {
    hide Next, Enabled;
    StandsStill(ws, steps, a + 1, c);
    DiskWritten(ws[a], steps[a]);
    RestartFinds(ws[c], steps[c]);
  }

  lemma DiskWritten(w: World, step: Step)
    requires Enabled(w, step)
    ensures WritesLatch(step) ==> Next(w, step).savedLatch == (step == KeepLatch(true))
    ensures WritesMode(step) ==> Next(w, step).savedArmed == (step == Save(true))
  {}

  lemma RestartFinds(w: World, step: Step)
    requires step.Crash?
    ensures Enabled(w, step)
    ensures var v := Next(w, step);
            && v.reverted == w.savedLatch && v.armed == w.savedArmed && v.active == 0
            && v.main == w.main && v.control == w.control
  {}

  /** Nothing is armed but by settings that were saved: the runner swapped in is the one on disk. */
  lemma {:induction false} SwapTakesSaved(ws: seq<World>, steps: seq<Step>, i: nat)
    requires Run(ws, steps) && i < |ws|
    ensures ws[i].admin.Stopping? || ws[i].admin.Swapping? ==> ws[i].admin.mode == ws[i].savedArmed
    ensures i < |steps| && steps[i].Swap? ==> ws[i + 1].armed == ws[i].savedArmed && !ws[i + 1].reverted
  {
    if i > 0 {
      SwapTakesSaved(ws, steps, i - 1);
      RunHolds(ws, steps, i - 1);
      ModeCarried(ws[i - 1], steps[i - 1]);
    }
    if i < |steps| {
      SwapsIn(ws[i], steps[i]);
    }
  }

  predicate CarriesSaved(w: World) { w.admin.Stopping? || w.admin.Swapping? ==> w.admin.mode == w.savedArmed }

  lemma ModeCarried(w: World, step: Step)
    requires Inv(w) && CarriesSaved(w) && Enabled(w, step)
    ensures CarriesSaved(Next(w, step))
  {
    hide Inv, LoopNext, AdminNext, OutsideNext, Enabled;
    if LoopStep(step) {
      assert LoopNext(w, step).admin == w.admin;
    } else if OutsideStep(step) {
      OutsideLeavesAdmin(w, step);
    } else {
      AdminCarries(w, step);
    }
  }

  lemma OutsideLeavesAdmin(w: World, step: Step)
    requires OutsideStep(step)
    ensures OutsideNext(w, step).admin in {w.admin, Resting} && OutsideNext(w, step).savedArmed == w.savedArmed
  {}

  lemma AdminCarries(w: World, step: Step)
    requires Enabled(w, step) && AdminStep(step) && CarriesSaved(w)
    ensures CarriesSaved(AdminNext(w, step))
  {}

  lemma SwapsIn(w: World, step: Step)
    requires CarriesSaved(w) && Enabled(w, step)
    ensures step.Swap? ==> Next(w, step).armed == w.savedArmed && !Next(w, step).reverted
  {}

  function CommitsBefore(steps: seq<Step>, n: nat): set<int>
    requires n <= |steps|
  {
    set k | 0 <= k < n && steps[k].Commit?
  }

  /** The decision number counts the switches recorded, and nothing is ever recorded as active but a path
      the loop chose or, at startup, the one the kernel already had. */
  lemma {:induction false} RecordedWasChosen(ws: seq<World>, steps: seq<Step>, i: nat)
    requires Run(ws, steps) && i < |ws|
    ensures ws[i].num == ws[0].num + |CommitsBefore(steps, i)|
    ensures ws[i].active != 0 ==>
              exists k :: 0 <= k < i && (steps[k] == Choose(ws[i].active)
                                         || (steps[k] == BootAdopt(true) && ws[k].main == ws[i].active))
  {
    hide Next, Enabled, Pursues, WritesActive, WritesMain, WritesControl;
    if i == 0 {
      assert CommitsBefore(steps, i) == {};
    } else {
      RecordedWasChosen(ws, steps, i - 1);
      CountNext(steps, i);
      StillStep(ws[i - 1], steps[i - 1]);
      Recorded(ws[i - 1], steps[i - 1]);
      if steps[i - 1].Commit? {
        ChosenBefore(ws, steps, i - 1);
      }
    }
  }

  lemma CountNext(steps: seq<Step>, n: nat)
    requires 0 < n <= |steps|
    ensures |CommitsBefore(steps, n)| == |CommitsBefore(steps, n - 1)| + if steps[n - 1].Commit? then 1 else 0
  {
    assert CommitsBefore(steps, n) == CommitsBefore(steps, n - 1) + if steps[n - 1].Commit? then {n - 1} else {};
  }

  lemma Recorded(w: World, step: Step)
    requires Enabled(w, step)
    ensures var v := Next(w, step);
            && (step.Commit? ==> Pursues(w.run) && v.num == w.num + 1 && v.active == w.run.path)
            && (v.active != w.active && v.active != 0 ==>
                  step.Commit? || (step == BootAdopt(true) && v.active == w.main))
  {
    StillStep(w, step);
  }

  predicate Pursues(r: Loop) { r.Chosen? || r.Checking? || r.Steering? || r.Routing? || r.Recording? }

  lemma {:induction false} ChosenBefore(ws: seq<World>, steps: seq<Step>, i: nat)
    requires Run(ws, steps) && i < |ws| && Pursues(ws[i].run)
    ensures exists k :: 0 <= k < i && steps[k] == Choose(ws[i].run.path)
  {
    hide Next, Enabled;
    PathCarried(ws[i - 1], steps[i - 1]);
    if steps[i - 1] != Choose(ws[i].run.path) {
      ChosenBefore(ws, steps, i - 1);
    }
  }

  lemma PathCarried(w: World, step: Step)
    requires Enabled(w, step) && Pursues(Next(w, step).run)
    ensures step == Choose(Next(w, step).run.path) || (Pursues(w.run) && w.run.path == Next(w, step).run.path)
  {
    hide AdminNext, OutsideNext, LoopNext, Enabled, Pursues;
    if LoopStep(step) {
      LoopCarries(w, step);
    } else if OutsideStep(step) {
      OutsideStops(w, step);
    } else {
      assert AdminNext(w, step).run == w.run;
    }
  }

  lemma LoopCarries(w: World, step: Step)
    requires Enabled(w, step) && LoopStep(step) && Pursues(LoopNext(w, step).run)
    ensures step == Choose(LoopNext(w, step).run.path)
            || (Pursues(w.run) && w.run.path == LoopNext(w, step).run.path)
  {
    hide LoopNext, Enabled, Pursues;
    if EvaluateStep(step) { EvaluateCarries(w, step); } else { OthersPursueNothing(w, step); }
  }

  lemma EvaluateCarries(w: World, step: Step)
    requires Enabled(w, step) && LoopStep(step) && EvaluateStep(step) && Pursues(LoopNext(w, step).run)
    ensures step == Choose(LoopNext(w, step).run.path)
            || (Pursues(w.run) && w.run.path == LoopNext(w, step).run.path)
  {}

  lemma OthersPursueNothing(w: World, step: Step)
    requires Enabled(w, step) && LoopStep(step) && !EvaluateStep(step)
    ensures !Pursues(LoopNext(w, step).run)
  {}

  lemma OutsideStops(w: World, step: Step)
    requires OutsideStep(step) && Pursues(OutsideNext(w, step).run)
    ensures OutsideNext(w, step).run == w.run
  {}

  /** No stale runner: whoever points the main route somewhere does it while the engine is armed
      and not reverted, and points it at the path it is about to record or has recorded. */
  lemma ArmedInstallsOnly(w: World, step: Step)
    requires Inv(w) && Enabled(w, step) && Next(w, step).main != w.main && Next(w, step).main != 0
    ensures w.armed && !w.reverted
    ensures Next(w, step).main == Next(w, step).active || Next(w, step).run == Recording(Next(w, step).main, true)
  {
    RouteMovers(w, step);
  }

  lemma RouteMovers(w: World, step: Step)
    requires Enabled(w, step) && Next(w, step).main != w.main && Next(w, step).main != 0
    ensures step.Install? || step.Mend? || step.Reroute?
  {
    hide Next;
    StillStep(w, step);
    if step.LoseMain? || (step.TearDown? && step.mainGone) {
      TakenAway(w, step);
    }
  }

  lemma TakenAway(w: World, step: Step)
    requires Enabled(w, step) && (step.LoseMain? || (step.TearDown? && step.mainGone))
    ensures Next(w, step).main == 0
  {}

  /** Observe mode decides and records without touching the route. */
  lemma ObserveLeavesRoute(w: World, step: Step)
    requires Inv(w) && Enabled(w, step) && !w.armed && !OutsideStep(step) && !step.TearDown?
    ensures Next(w, step).main == w.main
  {}

  // ---- no deadlock -----------------------------------------------------

  /** A step someone in the middle of something can take now. */
  function Progress(w: World): Step {
    match w.run
    case BootApplying => BootSeed(0, false)
    case BootAdopting => BootAdopt(false)
    case Checking(_) => Recheck
    case Steering(_, _) => Steer(true)
    case Routing(_, _) => Install(true)
    case Recording(_, _) => Commit
    case Looking => Look
    case MendingControl(_, _) => MendControl(true)
    case MendingMain(_, _) => Mend(true)
    case _ =>
      match w.admin
      case Stopping(_) => SwapLock
      case Swapping(_) => Swap
      case Swapped => ClearLatch(true)
      case Reapplying => ReapplyLock
      case Seeding => Seed(0, false)
      case Reasserting(_, _) => Resteer(true)
      case Rerouting(_, _) => Reroute(true)
      case Reapplied => Done
      case RevertWaiting => RevertLock
      case RevertLocked => Latch
      case Latched => KeepLatch(true)
      case Kept => TearDown(true, true)
      case TornDown => SaveObserve(true)
      case Saved => Finish
      case Resting => if w.run.BootWaiting? then BootLock else EvalLock
  }

  /** The two locks never deadlock: whenever someone is part-way through an operation, someone
      part-way through one can take a step. */
  lemma NoDeadlock(w: World)
    requires Inv(w) && !(w.admin.Resting? && (w.run.Idle? || w.run.Unstarted?))
    ensures Enabled(w, Progress(w)) && !OutsideStep(Progress(w))
  {}
}
