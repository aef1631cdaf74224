/**
 Bytes on the wire: the fixed probe packet, and every message the shared key or a session key
 ever authenticates.
 */
module Wire {
  import opened Words

  // ---- big-endian numbers ----------------------------------------------

  function Span(n: nat): (r: nat)
    ensures r > 0
  {
    if n == 0 then 1 else 256 * Span(n - 1)
  }

  lemma Spans()
    ensures Span(1) == 256 && Span(2) == 0x1_0000 && Span(8) == 0x1_0000_0000_0000_0000
  {
    assert Span(3) == 256 * Span(2) && Span(5) == 65536 * Span(3);
    assert Span(8) == 65536 * Span(6) && Span(6) == 256 * Span(5);
  }

  function Big(v: nat, n: nat): (r: seq<byte>)
    ensures |r| == n
  {
    if n == 0 then [] else Big(v / 256, n - 1) + [v % 256]
  }

  function Unbig(b: seq<byte>): nat {
    if b == [] then 0 else Unbig(b[..|b| - 1]) * 256 + b[|b| - 1]
  }

  lemma {:induction false} UnbigBig(v: nat, n: nat)
    requires v < Span(n)
    ensures Unbig(Big(v, n)) == v
  {
    if n > 0 {
      UnbigBig(v / 256, n - 1);
      assert Big(v, n)[..n - 1] == Big(v / 256, n - 1);
    }
  }

  lemma {:induction false} BigUnbig(b: seq<byte>)
    ensures Unbig(b) < Span(|b|) && Big(Unbig(b), |b|) == b
  {
    if b != [] {
      BigUnbig(b[..|b| - 1]);
    }
  }

  /** Most significant byte first: the `i`th is the digit of that weight in base 256. */
  lemma {:induction false} BigDigit(v: nat, n: nat, i: nat)
    requires i < n
    ensures Big(v, n)[i] == v / Span(n - 1 - i) % 256
  {
    if i == n - 1 {
      assert Span(0) == 1 && v / 1 == v;
    } else {
      BigDigit(v / 256, n - 1, i);
      var s := Span(n - 2 - i);
      assert Span(n - 1 - i) == 256 * s;
      DivideTwice(v, s);
    }
  }

  lemma DivideTwice(v: nat, s: nat)
    requires s > 0
    ensures v / 256 / s == v / (256 * s)
  {
    var q := v / 256;
    var r := q / s;
    var rest := 256 * (q % s) + v % 256;
    assert q == s * r + q % s;
    assert 256 * (s * r) == (256 * s) * r;
    assert v == (256 * s) * r + rest;
    assert 0 <= rest < 256 * s;
    QuotientIs(v, 256 * s, r, rest);
  }

  lemma QuotientIs(v: nat, m: nat, q: nat, r: nat)
    requires m > 0 && v == m * q + r && r < m
    ensures v / m == q
  {
    var d := v / m;
    assert v == m * d + v % m;
    assert m * (d + 1) == m * d + m && m * (q + 1) == m * q + m;
    NoMore(m, q, d);
    NoMore(m, d, q);
  }

  lemma NoMore(m: nat, x: int, y: int)
    requires m > 0 && m * x < m * (y + 1)
    ensures x <= y
  {}

  lemma BigInjective(v: nat, w: nat, n: nat)
    requires v < Span(n) && w < Span(n) && Big(v, n) == Big(w, n)
    ensures v == w
  {
    UnbigBig(v, n);
    UnbigBig(w, n);
  }

  function Unsigned(x: int64): u64 { if x < 0 then x + 0x1_0000_0000_0000_0000 else x }

  function Signed(x: u64): int64 {
    if x >= 0x8000_0000_0000_0000 then x - 0x1_0000_0000_0000_0000 else x
  }

  /** A signed number travels as the unsigned one it is congruent to, and comes back. */
  lemma TwosComplement(x: int64)
    ensures Unsigned(x) == x % 0x1_0000_0000_0000_0000 && Signed(Unsigned(x)) == x
  {}

  // ---- everything a key authenticates ----------------------------------

  /** What a MAC was made for. The first four are made under the shared key, a frame under the
      key the handshake derived. */
  datatype Use =
    | ProbeBody(body: seq<byte>)
    | DiallerProof(server: string, client: string)
    | AcceptorProof(server: string, client: string)
    | SessionKey(server: string, client: string)
    | Frame(toServer: bool, num: u64, typ: seq<byte>, data: seq<byte>)

  function Label(use: Use): string {
    match use
    case ProbeBody(_) => "homeport-probe-v2"
    case DiallerProof(_, _) => "homeport-control-client-v2"
    case AcceptorProof(_, _) => "homeport-control-server-v2"
    case SessionKey(_, _) => "homeport-control-session-v2"
    case Frame(toServer, _, _, _) => if toServer then "homeport-frame-to-server-v2" else "homeport-frame-to-client-v2"
  }

  const NONCE_LEN: nat := 32

  predicate ValidNonce(s: string) {
    |s| == NONCE_LEN && forall i :: 0 <= i < |s| ==> '0' <= s[i] <= '9' || 'a' <= s[i] <= 'f'
  }

  function Ascii(s: string): (r: seq<byte>)
    ensures |r| == |s|
  {
    seq(|s|, i requires 0 <= i < |s| => if s[i] < 128 as char then s[i] as int else 0)
  }

  const BODY_SIZE: nat := 50

  /** What the code lets near a key: bodies of the packet's size and nonces of its own making. */
  predicate Formed(use: Use) {
    match use
    case ProbeBody(body) => |body| == BODY_SIZE
    case DiallerProof(s, c) => ValidNonce(s) && ValidNonce(c)
    case AcceptorProof(s, c) => ValidNonce(s) && ValidNonce(c)
    case SessionKey(s, c) => ValidNonce(s) && ValidNonce(c)
    case Frame(_, _, typ, data) => |typ| < Span(8) && |data| < Span(8)
  }

  function Counted(s: seq<byte>): seq<byte> { Big(|s|, 8) + s }

  function Rest(use: Use): seq<byte> {
    match use
    case ProbeBody(body) => body
    case DiallerProof(s, c) => Ascii(s) + Ascii(c)
    case AcceptorProof(s, c) => Ascii(s) + Ascii(c)
    case SessionKey(s, c) => Ascii(s) + Ascii(c)
    case Frame(_, num, typ, data) => Big(num, 8) + (Counted(typ) + Counted(data))
  }

  /** The bytes the MAC is computed over. */
  function Preimage(use: Use): seq<byte> { Ascii(Label(use)) + Rest(use) }

  /** No label is a prefix of another: two uses under different labels part company inside them. */
  lemma LabelsPart(a: Use, b: Use)
    requires Label(a) != Label(b)
    ensures exists i :: 0 <= i < |Label(a)| && i < |Label(b)| && Label(a)[i] != Label(b)[i]
  {
    var la, lb := Label(a), Label(b);
    if la[9] == lb[9] {
      if la[9] == 'f' {
        assert la[18] != lb[18];
      } else if la[17] == lb[17] {
        assert la[19] != lb[19];
      }
    }
  }

  lemma AsciiInjective(s: string, t: string)
    requires |s| == |t| && Ascii(s) == Ascii(t)
    requires forall i :: 0 <= i < |s| ==> s[i] < 128 as char && t[i] < 128 as char
    ensures s == t
  {
    forall i | 0 <= i < |s|
      ensures s[i] == t[i]
    {
      assert Ascii(s)[i] == Ascii(t)[i];
    }
  }

  lemma NoncesSplit(s1: string, c1: string, s2: string, c2: string)
    requires ValidNonce(s1) && ValidNonce(c1) && ValidNonce(s2) && ValidNonce(c2)
    requires Ascii(s1) + Ascii(c1) == Ascii(s2) + Ascii(c2)
    ensures s1 == s2 && c1 == c2
  {
    assert Ascii(s1) == (Ascii(s1) + Ascii(c1))[..NONCE_LEN] == Ascii(s2);
    assert Ascii(c1) == (Ascii(s1) + Ascii(c1))[NONCE_LEN..] == Ascii(c2);
    AsciiInjective(s1, s2);
    AsciiInjective(c1, c2);
  }

  lemma HeadsSplit(a: seq<byte>, b: seq<byte>, x: seq<byte>, y: seq<byte>)
    requires |a| == |b| && a + x == b + y
    ensures a == b && x == y
  {
    assert a == (a + x)[..|a|] && b == (b + y)[..|a|];
    assert x == (a + x)[|a|..] && y == (b + y)[|a|..];
  }

  /** A length in front settles where a string ends. */
  lemma CountedSplits(s: seq<byte>, t: seq<byte>, x: seq<byte>, y: seq<byte>)
    requires |s| < Span(8) && |t| < Span(8) && Counted(s) + x == Counted(t) + y
    ensures s == t && x == y
  {
    hide Big, Span;
    assert Counted(s) + x == Big(|s|, 8) + (s + x) && Counted(t) + y == Big(|t|, 8) + (t + y);
    HeadsSplit(Big(|s|, 8), Big(|t|, 8), s + x, t + y);
    BigInjective(|s|, |t|, 8);
    HeadsSplit(s, t, x, y);
  }

  lemma FramesSplit(m: u64, n: u64, typ1: seq<byte>, typ2: seq<byte>, data1: seq<byte>, data2: seq<byte>)
    requires |typ1| < Span(8) && |typ2| < Span(8) && |data1| < Span(8) && |data2| < Span(8)
    requires Big(m, 8) + (Counted(typ1) + Counted(data1)) == Big(n, 8) + (Counted(typ2) + Counted(data2))
    ensures m == n && typ1 == typ2 && data1 == data2
  {
    Spans();
    hide Big, Counted, Span;
    HeadsSplit(Big(m, 8), Big(n, 8), Counted(typ1) + Counted(data1), Counted(typ2) + Counted(data2));
    BigInjective(m, n, 8);
    CountedSplits(typ1, typ2, Counted(data1), Counted(data2));
    assert Counted(data1) + [] == Counted(data1) && Counted(data2) + [] == Counted(data2);
    CountedSplits(data1, data2, [], []);
  }

  /** The bytes a frame is authenticated by, one after the other: label, number, and type and data, each
      behind its length. */
  lemma FrameAt(toServer: bool, num: u64, typ: seq<byte>, data: seq<byte>)
    ensures Preimage(Frame(toServer, num, typ, data)) ==
            Ascii(if toServer then "homeport-frame-to-server-v2" else "homeport-frame-to-client-v2")
            + Big(num, 8) + Big(|typ|, 8) + typ + Big(|data|, 8) + data
  {
    hide Big, Ascii;
    Regrouped(Ascii(Label(Frame(toServer, num, typ, data))), Big(num, 8), Big(|typ|, 8), typ, Big(|data|, 8), data);
  }

  lemma Regrouped(a: seq<byte>, b: seq<byte>, c: seq<byte>, d: seq<byte>, e: seq<byte>, f: seq<byte>)
    ensures a + (b + ((c + d) + (e + f))) == a + b + c + d + e + f
  {
    assert (c + d) + (e + f) == c + d + e + f;
    assert b + (c + d + e + f) == b + c + d + e + f;
  }

  lemma SameLabel(a: Use, b: Use)
    requires Preimage(a) == Preimage(b)
    ensures Label(a) == Label(b)
  {
    hide Label, Rest;
    var la, lb := Label(a), Label(b);
    LabelsAscii(a);
    LabelsAscii(b);
    forall i | 0 <= i < |la| && i < |lb|
      ensures la[i] == lb[i]
    {
      assert Preimage(a)[i] == Ascii(la)[i] && Preimage(b)[i] == Ascii(lb)[i];
    }
    if la != lb {
      LabelsPart(a, b);
    }
  }

  /** Domain separation: one string of bytes is ever authenticated for one purpose, with one
      content. So no proof, probe or frame can be presented as another. */
  lemma PreimageInjective(a: Use, b: Use)
    requires Formed(a) && Formed(b) && Preimage(a) == Preimage(b)
    ensures a == b
  {
    hide Label, Ascii, Big, Counted, Span, ValidNonce;
    SameLabel(a, b);
    SameKind(a, b);
    HeadsSplit(Ascii(Label(a)), Ascii(Label(b)), Rest(a), Rest(b));
    match a
    case ProbeBody(_) =>
    case DiallerProof(s, c) => NoncesSplit(s, c, b.server, b.client);
    case AcceptorProof(s, c) => NoncesSplit(s, c, b.server, b.client);
    case SessionKey(s, c) => NoncesSplit(s, c, b.server, b.client);
    case Frame(_, n, typ, data) => FramesSplit(n, b.num, typ, b.typ, data, b.data);
  }

  lemma LabelsAscii(a: Use)
    ensures forall i :: 0 <= i < |Label(a)| ==> Label(a)[i] < 128 as char
  {}

  lemma SameKind(a: Use, b: Use)
    requires Label(a) == Label(b)
    ensures (a.ProbeBody? <==> b.ProbeBody?) && (a.DiallerProof? <==> b.DiallerProof?)
    ensures (a.AcceptorProof? <==> b.AcceptorProof?) && (a.SessionKey? <==> b.SessionKey?)
    ensures a.Frame? ==> b.Frame? && a.toServer == b.toServer
  {
    var la, lb := Label(a), Label(b);
    assert la[9] == lb[9] && |la| == |lb|;
    if |la| > 20 {
      assert la[17] == lb[17] && la[18] == lb[18] && la[19] == lb[19];
    }
  }

  // ---- the probe packet ------------------------------------------------

  const PROBE_SIZE: nat := 66
  const VERSION: byte := 2
  const MAGIC: seq<byte> := [0x46, 0x4F, 0x56, 0x52]

  datatype Probe = Probe(
    typ: byte, path: u16, num: u64, txNanos: int64, echoNanos: int64,
    active: u16, decision: u64, nonce: u64)

  type Tag = t: seq<byte> | |t| == 16 witness Zeros(16)

  function Zeros(n: nat): (r: seq<byte>)
    ensures |r| == n
  {
    seq(n, _ => 0)
  }

  datatype Parsed = Ok(p: Probe) | BadProbe | WrongVersion

  function Body(p: Probe): (b: seq<byte>)
    ensures |b| == BODY_SIZE
  {
    MAGIC + [VERSION] + [p.typ] + Big(p.path, 2) + Big(p.num, 8) + Big(Unsigned(p.txNanos), 8)
    + Big(Unsigned(p.echoNanos), 8) + Big(p.active, 2) + Big(p.decision, 8) + Big(p.nonce, 8)
  }

  /** The packet, for whatever a MAC under the shared key does to the bytes given it. */
  function Packet(p: Probe, mac: seq<byte> -> Tag): (b: seq<byte>)
    ensures |b| == PROBE_SIZE
  {
    Body(p) + mac(Preimage(ProbeBody(Body(p))))
  }

  /** Writes `bytes` behind the `head` already in place. */
  method Put(b: array<byte>, off: nat, bytes: seq<byte>, ghost head: seq<byte>)
    requires off + |bytes| <= b.Length && b[..off] == head
    modifies b
    ensures b[..off + |bytes|] == head + bytes
  {
    forall i | 0 <= i < |bytes| {
      b[off + i] := bytes[i];
    }
    assert b[..off + |bytes|][..off] == head;
    assert b[..off + |bytes|][off..] == bytes;
  }

  method Marshal(p: Probe, mac: seq<byte> -> Tag) returns (b: array<byte>)
    ensures fresh(b) && b[..] == Packet(p, mac)
  {
    hide Big, Unsigned, Preimage, Body;
    b := new byte[PROBE_SIZE](_ => 0);
    PutHeader(b, p);
    PutClaims(b, p);
    BodyInTwo(p);
    Put(b, 50, mac(Preimage(ProbeBody(b[..50]))), b[..50]);
    assert b[..] == b[..66];
  }

  function Header(p: Probe): seq<byte> {
    MAGIC + [VERSION] + [p.typ] + Big(p.path, 2) + Big(p.num, 8) + Big(Unsigned(p.txNanos), 8)
  }

  function Claims(p: Probe): seq<byte> {
    Big(Unsigned(p.echoNanos), 8) + Big(p.active, 2) + Big(p.decision, 8) + Big(p.nonce, 8)
  }

  lemma BodyInTwo(p: Probe)
    ensures Body(p) == Header(p) + Claims(p)
  {
    hide Big, Unsigned;
  }

  method PutHeader(b: array<byte>, p: Probe)
    requires b.Length == PROBE_SIZE
    modifies b
    ensures b[..24] == Header(p)
  {
    hide Big, Unsigned;
    Put(b, 0, MAGIC, []);
    Put(b, 4, [VERSION], b[..4]);
    Put(b, 5, [p.typ], b[..5]);
    Put(b, 6, Big(p.path, 2), b[..6]);
    Put(b, 8, Big(p.num, 8), b[..8]);
    Put(b, 16, Big(Unsigned(p.txNanos), 8), b[..16]);
  }

  method PutClaims(b: array<byte>, p: Probe)
    requires b.Length == PROBE_SIZE && b[..24] == Header(p)
    modifies b
    ensures b[..50] == Header(p) + Claims(p)
  {
    hide Big, Unsigned, Header;
    Put(b, 24, Big(Unsigned(p.echoNanos), 8), b[..24]);
    Put(b, 32, Big(p.active, 2), b[..32]);
    Put(b, 34, Big(p.decision, 8), b[..34]);
    Put(b, 42, Big(p.nonce, 8), b[..42]);
    assert b[..50] == Header(p) + Claims(p);
  }

  function Field(b: seq<byte>, off: nat, n: nat): (v: nat)
    requires off + n <= |b|
    ensures v < Span(n)
  {
    BigUnbig(b[off..off + n]);
    Unbig(b[off..off + n])
  }

  /** The fields of a packet's first fifty bytes. */
  function Parts(b: seq<byte>): Probe
    requires |b| == BODY_SIZE
  {
    Spans();
    Probe(b[5], Field(b, 6, 2), Field(b, 8, 8), Signed(Field(b, 16, 8)), Signed(Field(b, 24, 8)),
          Field(b, 32, 2), Field(b, 34, 8), Field(b, 42, 8))
  }

  function Unmarshal(b: seq<byte>, mac: seq<byte> -> Tag): Parsed {
    if |b| != PROBE_SIZE then BadProbe
    else if b[0..4] != MAGIC then BadProbe
    else if b[4] != VERSION then WrongVersion
    else if mac(Preimage(ProbeBody(b[..50]))) != b[50..66] then BadProbe
    else Ok(Parts(b[..50]))
  }

  /** Which field stands where. */
  lemma BodyAt(p: Probe)
    ensures var b := Body(p);
            && b[0..4] == MAGIC && b[4] == VERSION && b[5] == p.typ && b[6..8] == Big(p.path, 2)
            && b[8..16] == Big(p.num, 8) && b[16..24] == Big(Unsigned(p.txNanos), 8)
            && b[24..32] == Big(Unsigned(p.echoNanos), 8) && b[32..34] == Big(p.active, 2)
            && b[34..42] == Big(p.decision, 8) && b[42..50] == Big(p.nonce, 8)
  {
    hide Big, Unsigned;
  }

  lemma Whole(b: seq<byte>)
    requires |b| == BODY_SIZE
    ensures b == b[0..4] + [b[4]] + [b[5]] + b[6..8] + b[8..16] + b[16..24] + b[24..32]
                 + b[32..34] + b[34..42] + b[42..50]
  {}

  lemma FieldIs(b: seq<byte>, off: nat, n: nat, v: nat)
    requires off + n <= |b| && v < Span(n) && b[off..off + n] == Big(v, n)
    ensures Field(b, off, n) == v
  {
    UnbigBig(v, n);
  }

  lemma FieldBack(b: seq<byte>, off: nat, n: nat)
    requires off + n <= |b|
    ensures Big(Field(b, off, n), n) == b[off..off + n]
  {
    BigUnbig(b[off..off + n]);
  }

  lemma PartsOfBody(p: Probe)
    ensures Parts(Body(p)) == p
  {
    var b := Body(p);
    Spans();
    BodyAt(p);
    hide Big, Field, Body, Span;
    FieldIs(b, 6, 2, p.path);
    FieldIs(b, 8, 8, p.num);
    FieldIs(b, 16, 8, Unsigned(p.txNanos));
    FieldIs(b, 24, 8, Unsigned(p.echoNanos));
    FieldIs(b, 32, 2, p.active);
    FieldIs(b, 34, 8, p.decision);
    FieldIs(b, 42, 8, p.nonce);
  }

  lemma BodyOfParts(b: seq<byte>)
    requires |b| == BODY_SIZE && b[0..4] == MAGIC && b[4] == VERSION
    ensures Body(Parts(b)) == b
  {
    Spans();
    hide Big, Field, Span;
    Whole(b);
    FieldBack(b, 6, 2);
    FieldBack(b, 8, 8);
    FieldBack(b, 16, 8);
    FieldBack(b, 24, 8);
    FieldBack(b, 32, 2);
    FieldBack(b, 34, 8);
    FieldBack(b, 42, 8);
  }

  lemma PacketAt(p: Probe, mac: seq<byte> -> Tag)
    ensures Packet(p, mac)[..50] == Body(p) && Packet(p, mac)[50..66] == mac(Preimage(ProbeBody(Body(p))))
    ensures Packet(p, mac)[0..4] == MAGIC && Packet(p, mac)[4] == VERSION
  {
    BodyAt(p);
    hide Body, Preimage;
  }

  /** The decoder accepts exactly the encoder's output: every packet sent is understood as what
      was sent, and nothing else is understood at all. */
  lemma RoundTrip(b: seq<byte>, p: Probe, mac: seq<byte> -> Tag)
    ensures Unmarshal(b, mac) == Ok(p) <==> b == Packet(p, mac)
  {
    PacketAt(p, mac);
    PartsOfBody(p);
    if Unmarshal(b, mac) == Ok(p) {
      assert b[..50][0..4] == b[0..4];
      BodyOfParts(b[..50]);
      assert b == b[..50] + b[50..66];
    }
    hide Preimage, Body, Parts;
  }

  // ---- lines -----------------------------------------------------------

  const MAX_FRAME_BYTES: nat := 1048576
  const NEWLINE: byte := 10

  datatype Line = Line(bytes: seq<byte>) | TooLarge | Unfinished

  /** The first newline at or after `from`, or the end. */
  function NewlineFrom(s: seq<byte>, from: nat): (p: nat)
    requires from <= |s|
    ensures from <= p <= |s| && (p < |s| ==> s[p] == NEWLINE)
    ensures forall i :: from <= i < p ==> s[i] != NEWLINE
    decreases |s| - from
  {
    if from == |s| || s[from] == NEWLINE then from else NewlineFrom(s, from + 1)
  }

  /** Reads one line of what the peer sent before the stream ended, a buffer at a time. The verdict
      depends on the bytes alone, never on how the buffer cut them, and no more than the limit is
      ever kept. */
  method ReadLine(stream: seq<byte>, buffer: nat) returns (r: Line)
    requires buffer > 0
    ensures var p := NewlineFrom(stream, 0);
            r == if p < |stream| && p < MAX_FRAME_BYTES then Line(stream[..p + 1])
                 else if p == |stream| && |stream| <= MAX_FRAME_BYTES then Unfinished
                 else TooLarge
  {
    var line: seq<byte> := [];
    while true
      invariant |line| <= |stream| && line == stream[..|line|] && |line| <= MAX_FRAME_BYTES
      invariant NewlineFrom(stream, 0) == NewlineFrom(stream, |line|)
      decreases |stream| - |line|
    {
      var at := |line|;
      var p := NewlineFrom(stream, at);
      var found := p < |stream| && p < at + buffer;
      var end := if found then p + 1 else if at + buffer < |stream| then at + buffer else |stream|;
      if end > MAX_FRAME_BYTES {
        return TooLarge;
      }
      line := line + stream[at..end];
      if found {
        return Line(line);
      }
      if end < at + buffer || at == |stream| {
        return Unfinished;
      }
      SkipTo(stream, at, end);
    }
  }

  lemma {:induction false} SkipTo(s: seq<byte>, from: nat, to: nat)
    requires from <= |s| && from <= to <= NewlineFrom(s, from)
    ensures to <= |s| && NewlineFrom(s, to) == NewlineFrom(s, from)
    decreases |s| - from
  {
    if from < to {
      SkipTo(s, from + 1, to);
    }
  }
}
