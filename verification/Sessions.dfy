/**
 Frames of an authenticated control session, with an ideal MAC, between two ends and over a
 network that drops, repeats, reorders, reflects and makes up whatever it likes.
 */
module Sessions {
  import opened Words
  import opened Wire

  /** Keys and tags, told apart exactly when they were made differently. */
  datatype Term = Shared(id: nat) | Mac(key: Term, bytes: seq<byte>) | Noise(id: nat)

  function DerivedKey(psk: Term, server: string, client: string): Term {
    Mac(psk, Preimage(SessionKey(server, client)))
  }

  /** A relay cannot splice two handshakes: ends hold one key only if they saw one transcript. */
  lemma SameTranscript(psk1: Term, psk2: Term, s1: string, c1: string, s2: string, c2: string)
    requires ValidNonce(s1) && ValidNonce(c1) && ValidNonce(s2) && ValidNonce(c2)
    ensures DerivedKey(psk1, s1, c1) == DerivedKey(psk2, s2, c2) <==> psk1 == psk2 && s1 == s2 && c1 == c2
  {
    if DerivedKey(psk1, s1, c1) == DerivedKey(psk2, s2, c2) {
      PreimageInjective(SessionKey(s1, c1), SessionKey(s2, c2));
    }
  }

  datatype Payload = Payload(typ: seq<byte>, data: seq<byte>)

  /** What one line on the wire decodes to. */
  datatype Wired = Wired(num: u64, payload: Payload, tag: Term)

  function TagOf(key: Term, toServer: bool, num: u64, p: Payload): Term {
    Mac(key, Preimage(Frame(toServer, num, p.typ, p.data)))
  }

  predicate Sized(p: Payload) { |p.typ| < MAX_FRAME_BYTES && |p.data| < MAX_FRAME_BYTES }

  function Bump(n: u64): u64 { (n + 1) % TWO_64 }

  // ---- one end ---------------------------------------------------------

  /** The frame an end hands to its connection for a payload. */
  function Framed(key: Term, dialler: bool, tx: u64, p: Payload): Wired {
    Wired(tx, p, TagOf(key, dialler, tx, p))
  }

  /** Whether an end believes a frame: the next one, from the other direction, under this key. */
  predicate Verifies(key: Term, dialler: bool, rx: u64, f: Wired) {
    f.num == rx && f.tag == TagOf(key, !dialler, f.num, f.payload)
  }

  class Session {
    const key: Term
    const dialler: bool
    var tx: u64
    var rx: u64

    /** The dialling end writes towards the server, the accepting end towards the client. */
    constructor (psk: Term, server: string, client: string, dialler: bool)
      requires ValidNonce(server) && ValidNonce(client)
      ensures key == DerivedKey(psk, server, client) && this.dialler == dialler && tx == 0 && rx == 0
    {
      key, this.dialler := DerivedKey(psk, server, client), dialler;
      tx, rx := 0, 0;
    }

    /** Frames what is handed to the connection. `fits` says the line is within the limit, `wrote`
        what the connection reported; a frame not reported written leaves the counter alone. */
    method WriteFrame(p: Payload, fits: bool, wrote: bool) returns (handed: seq<Wired>, ok: bool)
      modifies this`tx
      ensures ok == (fits && wrote)
      ensures handed == if fits then [Framed(key, dialler, old(tx), p)] else []
      ensures tx == if ok then Bump(old(tx)) else old(tx)
    {
      var tag := TagOf(key, dialler, tx, p);
      if !fits {
        return [], false;
      }
      handed := [Wired(tx, p, tag)];
      if !wrote {
        return handed, false;
      }
      tx := Bump(tx);
      ok := true;
    }

    method ReadFrame(f: Wired) returns (ok: bool)
      modifies this`rx
      ensures ok == Verifies(key, dialler, old(rx), f)
      ensures rx == if ok then Bump(old(rx)) else old(rx)
    {
      if f.num != rx {
        return false;
      }
      if f.tag != TagOf(key, !dialler, f.num, f.payload) {
        return false;
      }
      rx := Bump(rx);
      return true;
    }
  }

  // ---- two ends and the network ----------------------------------------

  datatype End = End(tx: u64, rx: u64, written: seq<Payload>, accepted: seq<Payload>, clean: bool)

  datatype Offer = Offer(toServer: bool, num: u64, payload: Payload)

  /** `offered` is everything either end ever let reach the wire under the session's key. */
  datatype World = World(key: Term, dialler: End, acceptor: End, offered: set<Offer>)

  /** How a write ended: reported done, reported failed with nothing on the wire, or reported
      failed although the bytes got out. */
  datatype Outcome = Written | Nothing | Leaked

  datatype Step =
    | Write(dialling: bool, payload: Payload, outcome: Outcome)
    | Read(dialling: bool, frame: Wired)

  function EndOf(w: World, dialling: bool): End { if dialling then w.dialler else w.acceptor }

  function WithEnd(w: World, dialling: bool, e: End): World {
    if dialling then w.(dialler := e) else w.(acceptor := e)
  }

  /** What the network can present: any number and payload, with a tag it has seen, or with one not
      made under the session's key. */
  ghost predicate Presentable(w: World, t: Term) {
    (t.Mac? && t.key == w.key) ==>
      exists o :: o in w.offered && Sized(o.payload) && t == TagOf(w.key, o.toServer, o.num, o.payload)
  }

  ghost predicate Enabled(w: World, step: Step) {
    match step
    case Write(d, p, _) => Sized(p) && EndOf(w, d).tx + 1 < TWO_64
    case Read(d, f) => Sized(f.payload) && EndOf(w, d).rx + 1 < TWO_64 && Presentable(w, f.tag)
  }

  /** What the connection was told to carry, and whether it said so. */
  predicate Reaches(outcome: Outcome) { !outcome.Nothing? }

  /** Both ends move as `WriteFrame` and `ReadFrame` move them. */
  function Next(w: World, step: Step): World {
    match step
    case Write(d, p, outcome) =>
      var e, f := EndOf(w, d), Framed(w.key, d, EndOf(w, d).tx, p);
      var told := if Reaches(outcome) then w.(offered := w.offered + {Offer(d, f.num, f.payload)}) else w;
      if outcome.Written? then WithEnd(told, d, e.(tx := Bump(e.tx), written := e.written + [p]))
      else if outcome.Leaked? then WithEnd(told, d, e.(clean := false))
      else told
    case Read(d, f) =>
      var e := EndOf(w, d);
      if Verifies(w.key, d, e.rx, f) then
        WithEnd(w, d, e.(rx := Bump(e.rx), accepted := e.accepted + [f.payload]))
      else w
  }

  ghost predicate Init(w: World) {
    && w.offered == {}
    && w.dialler == End(0, 0, [], [], true) && w.acceptor == End(0, 0, [], [], true)
  }

  ghost predicate Run(ws: seq<World>, steps: seq<Step>) {
    && |ws| == |steps| + 1 && Init(ws[0])
    && forall i :: 0 <= i < |steps| ==> Enabled(ws[i], steps[i]) && ws[i + 1] == Next(ws[i], steps[i])
  }

  /** Each payload went out in this direction, as the frame of that number. */
  ghost predicate AllOffered(offered: set<Offer>, d: bool, ps: seq<Payload>) {
    |ps| < TWO_64 && forall i :: 0 <= i < |ps| ==> Offer(d, i, ps[i]) in offered
  }

  lemma OfferedGrows(before: set<Offer>, after: set<Offer>, d: bool, ps: seq<Payload>)
    requires AllOffered(before, d, ps) && before <= after
    ensures AllOffered(after, d, ps)
  {}

  lemma OfferedExtends(offered: set<Offer>, d: bool, ps: seq<Payload>, p: Payload)
    requires AllOffered(offered, d, ps) && |ps| + 1 < TWO_64 && Offer(d, |ps|, p) in offered
    ensures AllOffered(offered, d, ps + [p])
  {
    forall i | 0 <= i < |ps + [p]|
      ensures Offer(d, i, (ps + [p])[i]) in offered
    {
      if i < |ps| {
        assert Offer(d, i, ps[i]) in offered;
      }
    }
  }

  /** The frames from one end to the other. */
  ghost predicate Way(w: World, d: bool) {
    var e, peer := EndOf(w, d), EndOf(w, !d);
    && e.tx == |e.written| && peer.rx == |peer.accepted|
    && (forall o :: o in w.offered && o.toServer == d ==> Sized(o.payload) && o.num <= e.tx)
    && (e.clean ==> forall o :: o in w.offered && o.toServer == d ==> o.num < e.tx && o.payload == e.written[o.num])
    && AllOffered(w.offered, d, e.written) && AllOffered(w.offered, d, peer.accepted)
  }

  lemma WriteKeeps(w: World, d: bool, step: Step)
    requires Way(w, d) && Enabled(w, step) && step.Write?
    ensures Way(Next(w, step), d)
  {
    hide Presentable, TagOf, AllOffered;
    var e, peer, v := EndOf(w, d), EndOf(w, !d), Next(w, step);
    OfferedGrows(w.offered, v.offered, d, e.written);
    OfferedGrows(w.offered, v.offered, d, peer.accepted);
    if step.dialling == d && step.outcome.Written? {
      OfferedExtends(v.offered, d, e.written, step.payload);
    }
  }

  /** The heart of it: a frame that verifies at this position was offered by the other end, in this
      direction, at this position. */
  lemma VerifiedWasOffered(w: World, d: bool, f: Wired)
    requires Enabled(w, Read(d, f)) && f.tag == TagOf(w.key, !d, f.num, f.payload)
    ensures Offer(!d, f.num, f.payload) in w.offered
  {
    var o :| o in w.offered && Sized(o.payload) && f.tag == TagOf(w.key, o.toServer, o.num, o.payload);
    Spans();
    hide Span, Preimage;
    PreimageInjective(Frame(!d, f.num, f.payload.typ, f.payload.data),
                      Frame(o.toServer, o.num, o.payload.typ, o.payload.data));
    assert o == Offer(!d, f.num, f.payload);
  }

  lemma ReadKeeps(w: World, d: bool, step: Step)
    requires Way(w, d) && Enabled(w, step) && step.Read?
    ensures Way(Next(w, step), d)
  {
    hide TagOf;
    var f := step.frame;
    if step.dialling == !d && Verifies(w.key, !d, EndOf(w, !d).rx, f) {
      VerifiedWasOffered(w, !d, f);
      OfferedExtends(w.offered, d, EndOf(w, !d).accepted, f.payload);
    }
    hide Presentable, AllOffered;
  }

  lemma {:induction false} RunHolds(ws: seq<World>, steps: seq<Step>, i: nat, d: bool)
    requires Run(ws, steps) && i < |ws|
    ensures Way(ws[i], d)
  {
    if i > 0 {
      RunHolds(ws, steps, i - 1, d);
      if steps[i - 1].Write? {
        WriteKeeps(ws[i - 1], d, steps[i - 1]);
      } else {
        ReadKeeps(ws[i - 1], d, steps[i - 1]);
      }
    }
  }

  // ---- what a session promises -----------------------------------------

  /** Whatever the network does, and however writes end, every frame accepted is one the other end
      let out in that direction as that very frame of the sequence. */
  lemma AcceptedWereOffered(ws: seq<World>, steps: seq<Step>, i: nat, dialling: bool, k: nat)
    requires Run(ws, steps) && i < |ws| && k < |EndOf(ws[i], dialling).accepted|
    ensures exists o :: o in ws[i].offered && o.toServer != dialling && o.num == k
                        && o.payload == EndOf(ws[i], dialling).accepted[k]
  {
    hide Run;
    RunHolds(ws, steps, i, !dialling);
    var o := Offer(!dialling, k, EndOf(ws[i], dialling).accepted[k]);
    assert o in ws[i].offered;
  }

  /** A failed write whose bytes got out. */
  predicate Leaks(step: Step, dialling: bool) { step.Write? && step.dialling == dialling && step.outcome.Leaked? }

  lemma {:induction false} CleanWithoutLeak(ws: seq<World>, steps: seq<Step>, i: nat, d: bool)
    requires Run(ws, steps) && i < |ws|
    ensures EndOf(ws[i], d).clean <==> forall k :: 0 <= k < i ==> !Leaks(steps[k], d)
  {
    if i > 0 {
      var last := i - 1;
      CleanWithoutLeak(ws, steps, last, d);
      assert EndOf(ws[i], d).clean == (EndOf(ws[last], d).clean && !Leaks(steps[last], d));
    }
  }

  /** Provided no failed write leaked, the frames one end has accepted are a prefix, in order, of
      those the other has written. */
  lemma AcceptedArePrefix(ws: seq<World>, steps: seq<Step>, i: nat, dialling: bool)
    requires Run(ws, steps) && i < |ws| && forall k :: 0 <= k < i ==> !Leaks(steps[k], !dialling)
    ensures EndOf(ws[i], dialling).accepted <= EndOf(ws[i], !dialling).written
  {
    hide Run;
    CleanWithoutLeak(ws, steps, i, !dialling);
    RunHolds(ws, steps, i, !dialling);
    var got, sent := EndOf(ws[i], dialling).accepted, EndOf(ws[i], !dialling).written;
    forall k | 0 <= k < |got|
      ensures k < |sent| && got[k] == sent[k]
    {
      assert Offer(!dialling, k, got[k]) in ws[i].offered;
    }
    if |got| > 0 {
      var last := |got| - 1;
      assert Offer(!dialling, last, got[last]) in ws[i].offered;
    }
  }

  /** That proviso is exact. From any leaked write in any run, the frames already written and then the
      leaked one can still be read, and with that the reader has accepted more than was written. */
  lemma LeakRunsAhead(ws: seq<World>, steps: seq<Step>, i: nat, dialling: bool)
    returns (ws2: seq<World>, steps2: seq<Step>)
    requires Run(ws, steps) && i < |steps| && Leaks(steps[i], !dialling)
    ensures Run(ws2, steps2) && steps[..i + 1] <= steps2 && ws[..i + 2] <= ws2
    ensures forall k :: i < k < |steps2| ==> steps2[k].Read? && steps2[k].dialling == dialling
    ensures var v := ws2[|steps2|]; !(EndOf(v, dialling).accepted <= EndOf(v, !dialling).written)
  {
    hide Enabled, Next;
    var ws1, steps1 := ws[..i + 2], steps[..i + 1];
    assert Run(ws1, steps1);
    LeakOffers(ws[i], steps[i]);
    ws2, steps2 := CatchUp(ws1, steps1, dialling, steps[i].payload);
    RunHolds(ws2, steps2, |steps2|, !dialling);
    assert forall k :: i < k < |steps2| ==> steps2[k].Read? && steps2[k].dialling == dialling;
  }

  lemma LeakOffers(w: World, step: Step)
    requires Enabled(w, step) && Leaks(step, step.dialling)
    ensures var v, e := Next(w, step), EndOf(Next(w, step), step.dialling);
            Offer(step.dialling, e.tx, step.payload) in v.offered && e.tx + 1 < TWO_64
  {}

  /** Reads every frame written and not yet read, and then the leaked one. */
  lemma {:induction false} CatchUp(ws: seq<World>, steps: seq<Step>, dialling: bool, p: Payload)
    returns (ws2: seq<World>, steps2: seq<Step>)
    requires Run(ws, steps)
    requires var w := ws[|steps|];
             EndOf(w, !dialling).tx + 1 < TWO_64 && Offer(!dialling, EndOf(w, !dialling).tx, p) in w.offered
    ensures Run(ws2, steps2) && steps <= steps2 && ws <= ws2
    ensures forall k :: |steps| <= k < |steps2| ==> steps2[k].Read? && steps2[k].dialling == dialling
    ensures var v := ws2[|steps2|]; EndOf(v, dialling).rx > EndOf(v, !dialling).tx
    decreases EndOf(ws[|steps|], !dialling).tx + 1 - EndOf(ws[|steps|], dialling).rx
  {
    hide Enabled, Next;
    var w := ws[|steps|];
    if EndOf(w, dialling).rx > EndOf(w, !dialling).tx {
      return ws, steps;
    }
    RunHolds(ws, steps, |steps|, !dialling);
    var read := NextOffered(w, dialling, p);
    RunExtends(ws, steps, read);
    ws2, steps2 := CatchUp(ws + [Next(w, read)], steps + [read], dialling, p);
    assert forall k :: |steps| <= k < |steps2| ==>
        if k == |steps| then steps2[k] == (steps + [read])[k] else steps2[k].Read? && steps2[k].dialling == dialling;
  }

  lemma RunExtends(ws: seq<World>, steps: seq<Step>, step: Step)
    requires Run(ws, steps) && Enabled(ws[|steps|], step)
    ensures Run(ws + [Next(ws[|steps|], step)], steps + [step])
    ensures |ws| == |steps| + 1 && (ws + [Next(ws[|steps|], step)])[|steps + [step]|] == Next(ws[|steps|], step)
  {
    hide Enabled, Next;
  }

  /** The frame at the reader's position, written or leaked, verifies. */
  lemma NextOffered(w: World, dialling: bool, p: Payload) returns (read: Step)
    requires Way(w, !dialling) && EndOf(w, dialling).rx <= EndOf(w, !dialling).tx
    requires EndOf(w, !dialling).tx + 1 < TWO_64 && Offer(!dialling, EndOf(w, !dialling).tx, p) in w.offered
    ensures read.Read? && read.dialling == dialling && Enabled(w, read)
    ensures EndOf(Next(w, read), dialling).rx == EndOf(w, dialling).rx + 1
    ensures EndOf(Next(w, read), !dialling) == EndOf(w, !dialling) && Next(w, read).offered == w.offered
  {
    hide TagOf;
    var e, n := EndOf(w, !dialling), EndOf(w, dialling).rx;
    var q := if n < e.tx then e.written[n] else p;
    var o := Offer(!dialling, n, q);
    assert o in w.offered && TagOf(w.key, !dialling, n, q) == TagOf(w.key, o.toServer, o.num, o.payload);
    read := Read(dialling, Framed(w.key, !dialling, n, q));
  }

  /** An undisturbed frame is accepted: the next one written and not yet read always verifies. */
  lemma NextWrittenIsAccepted(ws: seq<World>, steps: seq<Step>, i: nat, dialling: bool)
    requires Run(ws, steps) && i < |ws| && EndOf(ws[i], dialling).rx < EndOf(ws[i], !dialling).tx
    ensures var e, n := EndOf(ws[i], dialling), EndOf(ws[i], dialling).rx;
            n < |EndOf(ws[i], !dialling).written| &&
            var p := EndOf(ws[i], !dialling).written[n];
            var read := Read(dialling, Framed(ws[i].key, !dialling, n, p));
            && Enabled(ws[i], read)
            && EndOf(Next(ws[i], read), dialling).accepted == e.accepted + [p]
  {
    hide Run;
    RunHolds(ws, steps, i, !dialling);
    var w := ws[i];
    var n := EndOf(w, dialling).rx;
    var o := Offer(!dialling, n, EndOf(w, !dialling).written[n]);
    assert o in w.offered;
    assert TagOf(w.key, !dialling, n, o.payload) == TagOf(w.key, o.toServer, o.num, o.payload);
  }
}
