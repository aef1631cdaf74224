/**
 One path's prober: probes are numbered, matched to the replies that echo their nonce, and
 leave for the health tracker in sequence order however out of order they were resolved.
 */
module Probing {
  import opened Words

  datatype Probe = Probe(sent: int, nonce: nat)

  datatype Result = Result(num: nat, lost: bool, rtt: int, at: int)

  /** What an authenticated packet claims. */
  datatype Reply = Reply(isReply: bool, path: nat, num: nat, nonce: nat)

  /** `num` is the last number given out, `deliver` the next one to leave. */
  datatype State = State(num: nat, deliver: nat, pending: map<nat, Probe>, resolved: map<nat, Result>)

  // ---- what each locked section does -----------------------------------

  function Started(seed: nat): State { State(seed, seed + 1, map[], map[]) }

  function Sent(s: State, nonce: nat, now: int): State {
    s.(num := s.num + 1, pending := s.pending[s.num + 1 := Probe(now, nonce)])
  }

  function MarkedLost(s: State, num: nat, now: int): State {
    s.(pending := s.pending - {num}, resolved := s.resolved[num := Result(num, true, 0, now)])
  }

  function Unreached(s: State, now: int): State {
    MarkedLost(s.(num := s.num + 1), s.num + 1, now)
  }

  predicate Matches(s: State, msg: Reply, path: nat) {
    && msg.isReply && msg.path == path
    && msg.num in s.pending && s.pending[msg.num].nonce == msg.nonce
  }

  function Answer(s: State, msg: Reply, now: int): State
    requires msg.num in s.pending
  {
    s.(pending := s.pending - {msg.num},
       resolved := s.resolved[msg.num := Result(msg.num, false, now - s.pending[msg.num].sent, now)])
  }

  predicate Overdue(p: Probe, now: int, timeout: int) { p.sent < now - timeout }

  function Expired(s: State, now: int, timeout: int): State {
    s.(pending := map k | k in s.pending && !Overdue(s.pending[k], now, timeout) :: s.pending[k],
       resolved := s.resolved
                   + map k | k in s.pending && Overdue(s.pending[k], now, timeout) :: Result(k, true, 0, now))
  }

  /** Exactly the outstanding probes sent before the timeout go, and each becomes a loss. */
  lemma ExpiredExactly(s: State, now: int, timeout: int)
    ensures var e := Expired(s, now, timeout);
            && (forall k :: k in e.pending <==> k in s.pending && s.pending[k].sent >= now - timeout)
            && (forall k :: k in e.pending ==> e.pending[k] == s.pending[k])
            && (forall k :: k in s.pending && s.pending[k].sent < now - timeout ==>
                  k in e.resolved && e.resolved[k] == Result(k, true, 0, now))
            && (forall k :: k !in s.pending || s.pending[k].sent >= now - timeout ==>
                  (k in e.resolved <==> k in s.resolved) && (k in s.resolved ==> e.resolved[k] == s.resolved[k]))
            && e.num == s.num && e.deliver == s.deliver
  {}

  lemma ExpiredWhen(was: State, s: State, now: int, timeout: int)
    requires s.num == was.num && s.deliver == was.deliver
    requires forall k :: k in s.pending <==> k in was.pending && was.pending[k].sent >= now - timeout
    requires forall k :: k in s.pending ==> s.pending[k] == was.pending[k]
    requires forall k :: k in s.resolved <==> k in was.resolved || (k in was.pending && was.pending[k].sent < now - timeout)
    requires forall k :: k in s.resolved ==>
               s.resolved[k] == (if k in was.pending && was.pending[k].sent < now - timeout
                                 then Result(k, true, 0, now) else was.resolved[k])
    ensures s == Expired(was, now, timeout)
  {
    assert s.pending == Expired(was, now, timeout).pending;
    assert s.resolved == Expired(was, now, timeout).resolved;
  }

  /** The three branches of the delivery loop. */
  predicate Takes(s: State) { s.deliver in s.resolved }
  predicate Skips(s: State) { !Takes(s) && s.deliver !in s.pending && s.deliver < s.num }

  function Taken(s: State): State
    requires Takes(s)
  {
    s.(deliver := s.deliver + 1, resolved := s.resolved - {s.deliver})
  }

  function Skipped(s: State): State { s.(deliver := s.deliver + 1) }

  function Work(s: State): nat { |s.resolved| + Max(0, s.num - s.deliver) }

  lemma TakingIsWork(s: State)
    requires Takes(s)
    ensures Work(Taken(s)) < Work(s)
  {
    assert s.resolved.Keys == Taken(s).resolved.Keys + {s.deliver};
  }

  /** Where an uninterrupted delivery loop stops, and what it sent. */
  function Flushed(s: State): (State, seq<Result>)
    decreases Work(s)
  {
    if Takes(s) then
      TakingIsWork(s);
      var rest := Flushed(Taken(s));
      (rest.0, [s.resolved[s.deliver]] + rest.1)
    else if Skips(s) then Flushed(Skipped(s))
    else (s, [])
  }

  lemma FlushedUnfolds(s: State)
    ensures Takes(s) ==> Flushed(s).0 == Flushed(Taken(s)).0
                         && Flushed(s).1 == [s.resolved[s.deliver]] + Flushed(Taken(s)).1
    ensures Skips(s) ==> Flushed(s) == Flushed(Skipped(s))
    ensures !Takes(s) && !Skips(s) ==> Flushed(s) == (s, [])
  {}

  class Prober {
    const path: nat
    const timeout: int
    var num: nat
    var deliver: nat
    var pending: map<nat, Probe>
    var resolved: map<nat, Result>

    constructor (path: nat, timeout: int, seed: nat)
      ensures this.path == path && this.timeout == timeout && Now() == Started(seed)
    {
      this.path, this.timeout := path, timeout;
      num, deliver := seed, seed + 1;
      pending, resolved := map[], map[];
    }

    function Now(): State
      reads this
    {
      State(num, deliver, pending, resolved)
    }

    method Send(nonce: nat, now: int) returns (sent: nat)
      modifies this
      ensures Now() == Sent(old(Now()), nonce, now) && sent == num
    {
      num := num + 1;
      sent := num;
      pending := pending[sent := Probe(now, nonce)];
    }

    method MarkLost(k: nat, now: int)
      modifies this
      ensures Now() == MarkedLost(old(Now()), k, now)
    {
      pending := pending - {k};
      resolved := resolved[k := Result(k, true, 0, now)];
    }

    method ReportUnreachable(now: int)
      modifies this
      ensures Now() == Unreached(old(Now()), now)
    {
      num := num + 1;
      MarkLost(num, now);
    }

    method Resolve(msg: Reply, now: int) returns (ok: bool)
      modifies this
      ensures ok == Matches(old(Now()), msg, path)
      ensures Now() == if ok then Answer(old(Now()), msg, now) else old(Now())
      ensures ok <==> msg.isReply && msg.path == path
                      && msg.num in old(pending) && old(pending)[msg.num].nonce == msg.nonce
      ensures ok ==> pending == old(pending) - {msg.num}
                     && resolved == old(resolved)[msg.num := Result(msg.num, false, now - old(pending)[msg.num].sent, now)]
    {
      if !msg.isReply || msg.path != path {
        return false;
      }
      if msg.num !in pending || pending[msg.num].nonce != msg.nonce {
        return false;
      }
      var entry := pending[msg.num];
      pending := pending - {msg.num};
      resolved := resolved[msg.num := Result(msg.num, false, now - entry.sent, now)];
      return true;
    }

    /** Every outstanding probe past the timeout becomes a loss, in whatever order they are met. */
    method Expire(now: int)
      modifies this
      ensures Now() == Expired(old(Now()), now, timeout)
    {
      hide Expired, Overdue;
      ghost var was := Now();
      var todo := pending.Keys;
      while todo != {}
        invariant num == was.num && deliver == was.deliver
        invariant todo <= was.pending.Keys
        invariant forall k :: k in pending <==>
                    k in was.pending && (k in todo || was.pending[k].sent >= now - timeout)
        invariant forall k :: k in pending ==> pending[k] == was.pending[k]
        invariant forall k :: k in resolved <==>
                    k in was.resolved || (k in was.pending && k !in todo && was.pending[k].sent < now - timeout)
        invariant forall k :: k in resolved ==>
                    resolved[k] == (if k in was.pending && k !in todo && was.pending[k].sent < now - timeout
                                    then Result(k, true, 0, now) else was.resolved[k])
        decreases todo
      {
        var k :| k in todo;
        if pending[k].sent < now - timeout {
          MarkLost(k, now);
        }
        todo := todo - {k};
      }
      ExpiredWhen(was, Now(), now, timeout);
    }

    /** Delivers in sequence order; `out` is what it sent on. */
    method Flush() returns (out: seq<Result>)
      modifies this
      ensures Now() == Flushed(old(Now())).0 && out == Flushed(old(Now())).1
    {
      hide Flushed;
      out := [];
      ghost var first := Now();
      while true
        invariant Flushed(first).0 == Flushed(Now()).0
        invariant Flushed(first).1 == out + Flushed(Now()).1
        decreases Work(Now())
      {
        ghost var was := Now();
        FlushedUnfolds(was);
        if deliver !in resolved {
          if deliver !in pending && deliver < num {
            deliver := deliver + 1;
            assert Now() == Skipped(was);
            continue;
          }
          return;
        }
        TakingIsWork(was);
        var r := resolved[deliver];
        resolved := resolved - {deliver};
        deliver := deliver + 1;
        assert Now() == Taken(was);
        out := out + [r];
      }
    }
  }

  // ---- the prober's goroutine, its reader, and the channel -------------

  /** Where the sending goroutine is. The reader's `Resolve` may fall between any two steps. */
  datatype Phase = Ready | Writing(num: nat) | Flushing | Holding(r: Result)

  /** `asked` is every probe sent and `heard` every authentic packet read; `failed` the numbers
      whose sends were refused or never attempted. `taken` is every result removed for delivery
      and `out` what the channel received; a cancelled context may lose the one in hand. */
  datatype World = World(
    seed: nat, s: State, phase: Phase,
    taken: seq<Result>, out: seq<Result>, dropped: set<nat>,
    asked: map<nat, Probe>, heard: set<Reply>, failed: set<nat>)

  datatype Step =
    | Send(nonce: nat, now: int)
    | Wrote
    | Refused(now: int)
    | Unreachable(now: int)
    | Sweep(now: int)
    | Take
    | Skip
    | Stop
    | Emit
    | Cancel
    | Read(msg: Reply, now: int)

  ghost predicate Init(w: World) {
    w == World(w.seed, Started(w.seed), Ready, [], [], {}, map[], {}, {})
  }

  predicate Enabled(w: World, step: Step) {
    match step
    case Send(_, _) => w.phase.Ready?
    case Wrote => w.phase.Writing?
    case Refused(_) => w.phase.Writing?
    case Unreachable(_) => w.phase.Ready?
    case Sweep(_) => w.phase.Ready?
    case Take => w.phase.Flushing? && Takes(w.s)
    case Skip => w.phase.Flushing? && Skips(w.s)
    case Stop => w.phase.Flushing? && !Takes(w.s) && !Skips(w.s)
    case Emit => w.phase.Holding?
    case Cancel => w.phase.Holding?
    case Read(_, _) => true
  }

  function Next(w: World, step: Step, path: nat, timeout: int): World
    requires Enabled(w, step)
  {
    match step
    case Send(nonce, now) =>
      w.(s := Sent(w.s, nonce, now), phase := Writing(w.s.num + 1),
         asked := w.asked[w.s.num + 1 := Probe(now, nonce)])
    case Wrote => w.(phase := Ready)
    case Refused(now) =>
      w.(s := MarkedLost(w.s, w.phase.num, now), phase := Flushing, failed := w.failed + {w.phase.num})
    case Unreachable(now) =>
      w.(s := Unreached(w.s, now), phase := Flushing, failed := w.failed + {w.s.num + 1})
    case Sweep(now) => w.(s := Expired(w.s, now, timeout), phase := Flushing)
    case Take =>
      var r := w.s.resolved[w.s.deliver];
      w.(s := Taken(w.s), phase := Holding(r), taken := w.taken + [r])
    case Skip => w.(s := Skipped(w.s))
    case Stop => w.(phase := Ready)
    case Emit => w.(phase := Flushing, out := w.out + [w.phase.r])
    case Cancel => w.(phase := Ready, dropped := w.dropped + {w.phase.r.num})
    case Read(msg, now) =>
      w.(s := if Matches(w.s, msg, path) then Answer(w.s, msg, now) else w.s, heard := w.heard + {msg})
  }

  /** A result says what happened: an answer echoed the nonce of that very probe, and a loss is a
      probe that was never sent or outlived the timeout. */
  ghost predicate Honest(r: Result, asked: map<nat, Probe>, heard: set<Reply>, failed: set<nat>, path: nat, timeout: int) {
    if r.lost then
      r.num in failed || (r.num in asked && asked[r.num].sent < r.at - timeout)
    else
      && r.num in asked && r.rtt == r.at - asked[r.num].sent
      && Reply(true, path, r.num, asked[r.num].nonce) in heard
  }

  /** The results still wanted of `rs`: those not lost to a cancellation. */
  function Kept(rs: seq<Result>, dropped: set<nat>): seq<Result> {
    if rs == [] then []
    else
      var front, last := rs[..|rs| - 1], rs[|rs| - 1];
      Kept(front, dropped) + if last.num in dropped then [] else [last]
  }

  /** The numbers from `deliver` to `num` are the outstanding ones and the resolved ones, each once. */
  ghost predicate Partition(s: State) {
    && s.deliver <= s.num + 1
    && (forall k :: k in s.pending ==> s.deliver <= k <= s.num && k !in s.resolved)
    && (forall k :: k in s.resolved ==> s.deliver <= k <= s.num && s.resolved[k].num == k)
    && (forall k :: s.deliver <= k <= s.num ==> k in s.pending || k in s.resolved)
  }

  ghost predicate Truthful(w: World, path: nat, timeout: int) {
    && (forall k :: k in w.asked ==> k <= w.s.num)
    && (forall k :: k in w.s.pending ==> k in w.asked && w.asked[k] == w.s.pending[k])
    && (forall k :: k in w.s.resolved ==> Honest(w.s.resolved[k], w.asked, w.heard, w.failed, path, timeout))
    && (forall r :: r in w.taken ==> Honest(r, w.asked, w.heard, w.failed, path, timeout))
  }

  ghost predicate Delivered(w: World) {
    && w.s.deliver == w.seed + 1 + |w.taken|
    && (forall i :: 0 <= i < |w.taken| ==> w.taken[i].num == w.seed + 1 + i)
    && (forall k :: k in w.dropped ==> k < w.s.deliver)
    && (if w.phase.Holding? then
          && |w.taken| > 0 && w.taken[|w.taken| - 1] == w.phase.r && w.phase.r.num !in w.dropped
          && w.out == Kept(w.taken[..|w.taken| - 1], w.dropped)
        else w.out == Kept(w.taken, w.dropped))
  }

  ghost predicate Inv(w: World, path: nat, timeout: int) {
    && Partition(w.s)
    && (w.phase.Writing? ==> w.phase.num == w.s.num && w.s.deliver <= w.s.num)
    && Truthful(w, path, timeout) && Delivered(w)
  }

  // ---- every step keeps the invariant ----------------------------------

  lemma PartitionKeeps(w: World, step: Step, path: nat, timeout: int)
    requires Partition(w.s) && Enabled(w, step)
    requires w.phase.Writing? ==> w.phase.num == w.s.num && w.s.deliver <= w.s.num
    ensures var v := Next(w, step, path, timeout);
            Partition(v.s) && (v.phase.Writing? ==> v.phase.num == v.s.num && v.s.deliver <= v.s.num)
  {}

  lemma TruthfulKeeps(w: World, step: Step, path: nat, timeout: int)
    requires Partition(w.s) && Truthful(w, path, timeout) && Enabled(w, step)
    requires w.phase.Writing? ==> w.phase.num == w.s.num && w.s.deliver <= w.s.num
    requires forall r :: r in w.taken ==> r.num < w.s.deliver
    ensures Truthful(Next(w, step, path, timeout), path, timeout)
  {
    HonestStays(w, step, path, timeout);
    if step.Sweep? {
      TruthfulSweep(w, step, path, timeout);
    } else if step.Read? {
      TruthfulRead(w, step, path, timeout);
    } else {
      hide Expired, Answer, Matches, Overdue, Skips;
      var v := Next(w, step, path, timeout);
      assert forall k :: k in v.s.pending ==> k in v.asked && v.asked[k] == v.s.pending[k];
    }
  }

  lemma TruthfulSweep(w: World, step: Step, path: nat, timeout: int)
    requires Partition(w.s) && Truthful(w, path, timeout) && Enabled(w, step) && step.Sweep?
    ensures Truthful(Next(w, step, path, timeout), path, timeout)
  {
    assert Next(w, step, path, timeout).asked == w.asked;
  }

  lemma TruthfulRead(w: World, step: Step, path: nat, timeout: int)
    requires Partition(w.s) && Truthful(w, path, timeout) && Enabled(w, step) && step.Read?
    ensures Truthful(Next(w, step, path, timeout), path, timeout)
  {
    HonestStays(w, step, path, timeout);
    assert Next(w, step, path, timeout).asked == w.asked;
  }

  /** What was true of a result stays true of it. */
  lemma HonestStays(w: World, step: Step, path: nat, timeout: int)
    requires Enabled(w, step) && forall k :: k in w.asked ==> k <= w.s.num
    ensures var v := Next(w, step, path, timeout);
            forall r: Result | Honest(r, w.asked, w.heard, w.failed, path, timeout) ::
              Honest(r, v.asked, v.heard, v.failed, path, timeout)
  {
    hide Sent, MarkedLost, Unreached, Expired, Taken, Answer, Matches, Takes, Skips;
    var v := Next(w, step, path, timeout);
    assert w.heard <= v.heard && w.failed <= v.failed;
    assert forall k :: k in w.asked ==> k in v.asked && v.asked[k] == w.asked[k];
  }

  lemma {:induction false} KeptIgnores(rs: seq<Result>, dropped: set<nat>, num: nat)
    requires forall r :: r in rs ==> r.num != num
    ensures Kept(rs, dropped + {num}) == Kept(rs, dropped)
  {
    if rs != [] {
      KeptIgnores(rs[..|rs| - 1], dropped, num);
    }
  }

  lemma DeliveredKeeps(w: World, step: Step, path: nat, timeout: int)
    requires Partition(w.s) && Delivered(w) && Enabled(w, step)
    ensures Delivered(Next(w, step, path, timeout))
  {
    hide Matches, Overdue;
    if step.Cancel? {
      KeptIgnores(w.taken[..|w.taken| - 1], w.dropped, w.phase.r.num);
    }
    if step.Take? {
      assert (w.taken + [w.s.resolved[w.s.deliver]])[..|w.taken|] == w.taken;
    }
    if step.Emit? {
      assert w.taken == w.taken[..|w.taken| - 1] + [w.phase.r];
    }
  }

  lemma StepKeeps(w: World, step: Step, path: nat, timeout: int)
    requires Inv(w, path, timeout) && Enabled(w, step)
    ensures Inv(Next(w, step, path, timeout), path, timeout)
  {
    hide Partition, Truthful, Next;
    PartitionKeeps(w, step, path, timeout);
    assert forall r :: r in w.taken ==> r.num < w.s.deliver;
    TruthfulKeeps(w, step, path, timeout);
    hide Delivered;
    DeliveredKeeps(w, step, path, timeout);
  }

  ghost predicate Run(ws: seq<World>, steps: seq<Step>, path: nat, timeout: int) {
    && |ws| == |steps| + 1 && Init(ws[0])
    && forall i :: 0 <= i < |steps| ==>
         Enabled(ws[i], steps[i]) && ws[i + 1] == Next(ws[i], steps[i], path, timeout)
  }

  lemma {:induction false} RunHolds(ws: seq<World>, steps: seq<Step>, path: nat, timeout: int, i: nat)
    requires Run(ws, steps, path, timeout) && i < |ws|
    ensures Inv(ws[i], path, timeout)
  {
    if i > 0 {
      hide Inv, Next;
      RunHolds(ws, steps, path, timeout, i - 1);
      StepKeeps(ws[i - 1], steps[i - 1], path, timeout);
    }
  }

  // ---- what the prober promises ----------------------------------------

  /** The numbers not yet delivered split into outstanding and resolved, so the loop's skip branch
      is never reached: no number is ever passed over. */
  lemma SkipNeverTaken(ws: seq<World>, steps: seq<Step>, path: nat, timeout: int, i: nat)
    requires Run(ws, steps, path, timeout) && i < |ws|
    ensures ws[i].s.pending.Keys !! ws[i].s.resolved.Keys
    ensures forall k :: ws[i].s.deliver <= k <= ws[i].s.num
                        <==> k in ws[i].s.pending.Keys + ws[i].s.resolved.Keys
    ensures !Skips(ws[i].s)
  {
    hide Run;
    RunHolds(ws, steps, path, timeout, i);
  }

  /** Every number after the seed leaves once, in order, and says truthfully what became of its
      probe. The channel sees all of them, in that order, if and only if no flush was cancelled with
      a result in hand. */
  lemma DeliveredInOrder(ws: seq<World>, steps: seq<Step>, path: nat, timeout: int, i: nat)
    requires Run(ws, steps, path, timeout) && i < |ws| && !ws[i].phase.Holding?
    ensures var w := ws[i];
            && |w.taken| == w.s.deliver - w.seed - 1
            && (forall j :: 0 <= j < |w.taken| ==>
                  && w.taken[j].num == w.seed + 1 + j
                  && Honest(w.taken[j], w.asked, w.heard, w.failed, path, timeout))
            && w.out == Kept(w.taken, w.dropped)
    ensures ws[i].out == ws[i].taken <==> forall k :: 0 <= k < i ==> !steps[k].Cancel?
  {
    hide Run, Kept;
    RunHolds(ws, steps, path, timeout, i);
    CancelledOnly(ws, steps, path, timeout, i);
    DroppedByCancel(ws, steps, path, timeout, i);
    KeptAll(ws[i].taken, ws[i].dropped);
  }

  lemma {:induction false} DroppedByCancel(ws: seq<World>, steps: seq<Step>, path: nat, timeout: int, i: nat)
    requires Run(ws, steps, path, timeout) && i < |ws|
    ensures ws[i].dropped == {} <==> forall k :: 0 <= k < i ==> !steps[k].Cancel?
  {
    if i > 0 {
      var last := i - 1;
      DroppedByCancel(ws, steps, path, timeout, last);
      DropsOne(ws[last], steps[last], path, timeout);
    } else {
      assert ws[i].dropped == {};
    }
  }

  lemma DropsOne(w: World, step: Step, path: nat, timeout: int)
    requires Enabled(w, step)
    ensures Next(w, step, path, timeout).dropped == if step.Cancel? then w.dropped + {w.phase.r.num} else w.dropped
  {}

  /** Such runs exist from any start: one probe sent and never answered, swept into a loss, taken,
      and the context gone before it could be sent on. */
  lemma CancelledRun(path: nat, timeout: int, seed: nat, nonce: nat) returns (ws: seq<World>, steps: seq<Step>)
    ensures Run(ws, steps, path, timeout) && ws[0].seed == seed && |steps| == 5
    ensures ws[5].phase == Ready && ws[5].out == [] && ws[5].taken == [Result(seed + 1, true, 0, timeout + 1)]
  {
    hide Expired;
    steps := [Send(nonce, 0), Wrote, Sweep(timeout + 1), Take, Cancel];
    var w0 := World(seed, Started(seed), Ready, [], [], {}, map[], {}, {});
    var w1 := Next(w0, Send(nonce, 0), path, timeout);
    var w2 := Next(w1, Wrote, path, timeout);
    LoneProbeExpires(seed, nonce, timeout);
    var w3 := Next(w2, Sweep(timeout + 1), path, timeout);
    var w4 := Next(w3, Take, path, timeout);
    var w5 := Next(w4, Cancel, path, timeout);
    ws := [w0, w1, w2, w3, w4, w5];
    forall i | 0 <= i < |steps|
      ensures Enabled(ws[i], steps[i]) && ws[i + 1] == Next(ws[i], steps[i], path, timeout)
    {
    }
  }

  lemma LoneProbeExpires(seed: nat, nonce: nat, timeout: int)
    ensures var s := Expired(Sent(Started(seed), nonce, 0), timeout + 1, timeout);
            s.num == s.deliver == seed + 1 && seed + 1 in s.resolved
            && s.resolved[seed + 1] == Result(seed + 1, true, 0, timeout + 1)
  {}

  lemma {:induction false} KeptAll(rs: seq<Result>, dropped: set<nat>)
    ensures |Kept(rs, dropped)| <= |rs|
    ensures Kept(rs, dropped) == rs <==> forall r :: r in rs ==> r.num !in dropped
  {
    if rs != [] {
      var front, last := rs[..|rs| - 1], rs[|rs| - 1];
      KeptAll(front, dropped);
      assert rs == front + [last];
      if last.num !in dropped {
        assert Kept(rs, dropped) == Kept(front, dropped) + [last];
        assert Kept(rs, dropped)[..|Kept(front, dropped)|] == Kept(front, dropped);
      }
    }
  }

  /** Only numbers really taken are ever lost to a cancellation. */
  lemma {:induction false} CancelledOnly(ws: seq<World>, steps: seq<Step>, path: nat, timeout: int, i: nat)
    requires Run(ws, steps, path, timeout) && i < |ws|
    ensures forall k :: k in ws[i].dropped ==> exists r :: r in ws[i].taken && r.num == k
  {
    if i > 0 {
      CancelledOnly(ws, steps, path, timeout, i - 1);
      RunHolds(ws, steps, path, timeout, i - 1);
      var w := ws[i - 1];
      if steps[i - 1].Cancel? {
        assert w.phase.r in w.taken;
      }
    }
  }

  /** A cancellation with a result in hand leaves a gap no later step fills. */
  lemma {:induction false} DroppedForGood(ws: seq<World>, steps: seq<Step>, path: nat, timeout: int, i: nat, j: nat)
    requires Run(ws, steps, path, timeout) && i < j < |ws| && Enabled(ws[i], Cancel) && steps[i] == Cancel
    ensures ws[i].phase.r.num in ws[j].dropped
    ensures forall r :: r in ws[j].out ==> r.num != ws[i].phase.r.num
    decreases j
  {
    var num := ws[i].phase.r.num;
    if j > i + 1 {
      DroppedForGood(ws, steps, path, timeout, i, j - 1);
    }
    assert num in ws[j].dropped;
    RunHolds(ws, steps, path, timeout, j);
    KeptWants(ws[j].taken, ws[j].dropped);
    if ws[j].phase.Holding? {
      KeptWants(ws[j].taken[..|ws[j].taken| - 1], ws[j].dropped);
    }
  }

  lemma {:induction false} KeptWants(rs: seq<Result>, dropped: set<nat>)
    ensures forall r :: r in Kept(rs, dropped) ==> r.num !in dropped
  {
    if rs != [] {
      KeptWants(rs[..|rs| - 1], dropped);
    }
  }

  /** A result once reached is never changed, unless the write of its own probe is then refused: it waits
      its turn, and then it leaves. */
  lemma {:induction false} ResultStays(ws: seq<World>, steps: seq<Step>, path: nat, timeout: int, i: nat, j: nat, k: nat)
    requires Run(ws, steps, path, timeout) && i <= j < |ws| && k in ws[i].s.resolved
    requires forall m :: i <= m < j ==> !(steps[m].Refused? && ws[m].phase == Writing(k))
    ensures var r, w := ws[i].s.resolved[k], ws[j];
            if k < w.s.deliver then r in w.taken else k in w.s.resolved && w.s.resolved[k] == r
    decreases j
  {
    hide Next, Inv, Enabled;
    if i < j {
      ResultStays(ws, steps, path, timeout, i, j - 1, k);
      RunHolds(ws, steps, path, timeout, j - 1);
      if ws[j - 1].s.deliver <= k {
        ResultStep(ws[j - 1], steps[j - 1], path, timeout, k);
      }
      TakenStays(ws[j - 1], steps[j - 1], path, timeout);
    } else {
      RunHolds(ws, steps, path, timeout, i);
      NotYetGone(ws[i], path, timeout, k);
    }
  }

  lemma NotYetGone(w: World, path: nat, timeout: int, k: nat)
    requires Inv(w, path, timeout) && k in w.s.resolved
    ensures w.s.deliver <= k
  {}

  lemma ResultStep(w: World, step: Step, path: nat, timeout: int, k: nat)
    requires Inv(w, path, timeout) && Enabled(w, step) && w.s.deliver <= k && k in w.s.resolved
    requires !(step.Refused? && w.phase == Writing(k))
    ensures var r, v := w.s.resolved[k], Next(w, step, path, timeout);
            if k < v.s.deliver then r in v.taken else k in v.s.resolved && v.s.resolved[k] == r
  {
    hide Truthful, Delivered;
    assert Partition(w.s);
  }

  lemma TakenStays(w: World, step: Step, path: nat, timeout: int)
    requires Enabled(w, step)
    ensures w.taken <= Next(w, step, path, timeout).taken
    ensures w.s.deliver <= Next(w, step, path, timeout).s.deliver
  {}

  /** What comes of a reply to an outstanding probe that names its path and echoes its nonce: it counts,
      with the time it took, and that is what leaves under its number, unless the write of that very
      probe is afterwards reported refused; any other packet leaves everything as it was. */
  lemma ReplyCounts(ws: seq<World>, steps: seq<Step>, path: nat, timeout: int, i: nat, j: nat, msg: Reply, now: int)
    requires Run(ws, steps, path, timeout) && i < j < |ws| && steps[i] == Read(msg, now)
    requires forall m :: i < m < j ==> !(steps[m].Refused? && ws[m].phase == Writing(msg.num))
    ensures var s, w := ws[i].s, ws[j];
            if msg.isReply && msg.path == path && msg.num in s.pending && s.pending[msg.num].nonce == msg.nonce then
              var r := Result(msg.num, false, now - s.pending[msg.num].sent, now);
              if msg.num < w.s.deliver then r in w.taken else msg.num in w.s.resolved && w.s.resolved[msg.num] == r
            else ws[i + 1].s == s
  {
    hide Inv;
    assert Enabled(ws[i], steps[i]) && ws[i + 1] == Next(ws[i], steps[i], path, timeout);
    ReadStep(ws[i], msg, now, path, timeout);
    if msg.isReply && msg.path == path && msg.num in ws[i].s.pending && ws[i].s.pending[msg.num].nonce == msg.nonce {
      ResultStays(ws, steps, path, timeout, i + 1, j, msg.num);
    }
  }

  lemma ReadStep(w: World, msg: Reply, now: int, path: nat, timeout: int)
    ensures var v := Next(w, Read(msg, now), path, timeout);
            if msg.isReply && msg.path == path && msg.num in w.s.pending && w.s.pending[msg.num].nonce == msg.nonce then
              msg.num in v.s.resolved
              && v.s.resolved[msg.num] == Result(msg.num, false, now - w.s.pending[msg.num].sent, now)
            else v.s == w.s
  {}

  /** A write refused leaves as a loss, even if a reply to that very probe had been read meanwhile. */
  lemma RefusalCounts(ws: seq<World>, steps: seq<Step>, path: nat, timeout: int, i: nat, j: nat, now: int)
    requires Run(ws, steps, path, timeout) && i < j < |ws| && steps[i] == Refused(now) && ws[i].phase.Writing?
    ensures var num, w := ws[i].phase.num, ws[j];
            var r := Result(num, true, 0, now);
            if num < w.s.deliver then r in w.taken else num in w.s.resolved && w.s.resolved[num] == r
  {
    hide Inv;
    var num := ws[i].phase.num;
    RunHolds(ws, steps, path, timeout, i);
    RefusedStep(ws[i], now, path, timeout);
    forall m | i < m < j
      ensures ws[m].phase != Writing(num)
    {
      NeverAgain(ws, steps, path, timeout, i + 1, m, num);
    }
    ResultStays(ws, steps, path, timeout, i + 1, j, num);
  }

  /** The number is given out and its write is over. */
  predicate Past(w: World, num: nat) { num < w.s.num || (num == w.s.num && !w.phase.Writing?) }

  lemma RefusedStep(w: World, now: int, path: nat, timeout: int)
    requires Inv(w, path, timeout) && w.phase.Writing?
    ensures var num, v := w.phase.num, Next(w, Refused(now), path, timeout);
            Past(v, num) && num in v.s.resolved && v.s.resolved[num] == Result(num, true, 0, now)
  {}

  lemma {:induction false} NeverAgain(ws: seq<World>, steps: seq<Step>, path: nat, timeout: int, i: nat, j: nat, num: nat)
    requires Run(ws, steps, path, timeout) && i <= j < |ws| && Past(ws[i], num)
    ensures Past(ws[j], num) && !(ws[j].phase == Writing(num))
    decreases j
  {
    hide Next, Inv;
    RunHolds(ws, steps, path, timeout, j);
    if i < j {
      NeverAgain(ws, steps, path, timeout, i, j - 1, num);
      PastStep(ws[j - 1], steps[j - 1], path, timeout, num);
    }
    LastWritten(ws[j], path, timeout);
  }

  lemma PastStep(w: World, step: Step, path: nat, timeout: int, num: nat)
    requires Enabled(w, step) && Past(w, num)
    ensures Past(Next(w, step, path, timeout), num)
  {}

  lemma LastWritten(w: World, path: nat, timeout: int)
    requires Inv(w, path, timeout)
    ensures w.phase.Writing? ==> w.phase.num == w.s.num
  {}

  // ---- draining --------------------------------------------------------

  /** One sweep delivers up to the first probe still within its time, and no further. */
  lemma SweepDeliversExactly(s: State, now: int, timeout: int)
    requires Partition(s)
    ensures var (v, out) := Flushed(Expired(s, now, timeout));
            && Partition(v) && v.num == s.num && |out| == v.deliver - s.deliver
            && (forall k :: k in s.pending && k < v.deliver ==> s.pending[k].sent < now - timeout)
            && (v.deliver <= s.num ==> v.deliver in s.pending && s.pending[v.deliver].sent >= now - timeout)
  {
    hide Flushed;
    var e := Expired(s, now, timeout);
    assert Partition(e);
    FlushStopsAtPending(e);
  }

  /** And what it sends is, in order, a loss for each probe past its time and what was resolved before
      for the others. */
  lemma SweepSends(s: State, now: int, timeout: int, i: nat)
    requires Partition(s) && i < |Flushed(Expired(s, now, timeout)).1|
    ensures Flushed(Expired(s, now, timeout)).1[i] ==
            if s.deliver + i in s.resolved then s.resolved[s.deliver + i] else Result(s.deliver + i, true, 0, now)
    ensures s.deliver + i !in s.resolved ==>
              s.deliver + i in s.pending && s.pending[s.deliver + i].sent < now - timeout
  {
    hide Flushed;
    var e := Expired(s, now, timeout);
    assert Partition(e);
    FlushSendsResolved(e, i);
  }

  lemma {:induction false} FlushStopsAtPending(s: State)
    requires Partition(s)
    ensures var (v, out) := Flushed(s);
            && Partition(v) && v.num == s.num && v.pending == s.pending && |out| == v.deliver - s.deliver
            && (forall k :: s.deliver <= k < v.deliver ==> k !in s.pending)
            && (v.deliver <= s.num ==> v.deliver in s.pending)
    decreases Work(s)
  {
    if Takes(s) {
      TakingIsWork(s);
      assert Partition(Taken(s));
      FlushStopsAtPending(Taken(s));
    }
  }

  /** What a flush sends is what was resolved under each number from the next one on. */
  lemma {:induction false} FlushSendsResolved(s: State, i: nat)
    requires i < |Flushed(s).1| && Partition(s)
    ensures s.deliver + i in s.resolved && Flushed(s).1[i] == s.resolved[s.deliver + i]
    decreases i
  {
    hide Flushed;
    FlushedUnfolds(s);
    if i > 0 {
      assert Partition(Taken(s));
      FlushSendsResolved(Taken(s), i - 1);
    }
  }

  /** Nothing can park the queue: once every outstanding probe is past the timeout one sweep
      empties it - and not before. */
  lemma SweepDrains(s: State, now: int, timeout: int)
    requires Partition(s)
    ensures (forall k :: k in s.pending ==> s.pending[k].sent < now - timeout)
            <==> Flushed(Expired(s, now, timeout)).0 == State(s.num, s.num + 1, map[], map[])
  {
    SweepDeliversExactly(s, now, timeout);
    var v := Flushed(Expired(s, now, timeout)).0;
    if v.deliver == s.num + 1 {
      assert v.pending == map[] && v.resolved == map[];
    }
  }
}
