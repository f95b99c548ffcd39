/** The save-state container (src/core/ear6.cpp): a preamble of 32 bytes that describes and checks the body.
    The body itself is encoded elsewhere and is bytes here. */
module StateContainer {
  import opened Types
  import opened Checksums
  import opened StateCodec

  const WIRE_VERSION := 1
  const PREAMBLE := 32
  const MAX_CONTENT := 0x7FFF_FFFF

  function Magic(): (m: Bytes)
    ensures |m| == 8
  {
    [0x45, 0x41, 0x52, 0x36, 0x53, 0x54, 0x41, 0x54]
  }

  /** Sizes are 64-bit: a container that fits in memory. */
  predicate InMemory(size: nat) { size < 0x1_0000_0000_0000_0000 }

  function Preamble(body: Bytes): (p: Bytes)
    ensures |p| == PREAMBLE
  {
    Magic() + Le(WIRE_VERSION, 4) + Le(PREAMBLE, 4) + Le(|body|, 8) + Le(Crc(body) as int, 4) + Le(0, 4)
  }

  /** build_state, from the encoded body on. */
  function Build(body: Bytes): Bytes { Preamble(body) + body }

  function Field(data: Bytes, at: nat, n: nat): nat
    requires at + n <= |data|
  {
    FromLe(data[at..at + n])
  }

  /** parse_state up to the decoding of the body: what passes the checks. */
  function Checked(data: Bytes): Option<Bytes> {
    if |data| < PREAMBLE || data[..8] != Magic() then None
    else
      var preamble := Field(data, 12, 4);
      if Field(data, 8, 4) != WIRE_VERSION || preamble < PREAMBLE || preamble > |data|
         || Field(data, 16, 8) != |data| - preamble || Field(data, 28, 4) != 0
         || Field(data, 24, 4) != Crc(data[preamble..]) as int then None
      else Some(data[preamble..])
  }

  /** What the body decodes to, as far as parse_state checks it. */
  datatype Body = Body(content: Bytes, identity: u64)

  /** parse_state: accepted, or -4. */
  function Parse(data: Bytes, decode: Bytes -> Option<Body>): Option<Body> {
    match Checked(data)
    case None => None
    case Some(bytes) =>
      match decode(bytes)
      case None => None
      case Some(body) =>
        if |body.content| > MAX_CONTENT || body.identity != Identity(body.content) then None else Some(body)
  }

  // ---- reading back the preamble ----

  lemma Powers()
    ensures Pow256(4) == 0x1_0000_0000 && Pow256(8) == 0x1_0000_0000_0000_0000
  {
    assert Pow256(4) == 256 * 256 * 256 * 256 * Pow256(0);
    assert Pow256(8) == 256 * 256 * 256 * 256 * Pow256(4);
  }

  lemma Slices(m: Bytes, a: Bytes, b: Bytes, c: Bytes, d: Bytes, e: Bytes, body: Bytes)
    requires |m| == |c| == 8 && |a| == |b| == |d| == |e| == 4
    ensures var data := m + a + b + c + d + e + body;
            && data[..8] == m && data[8..12] == a && data[12..16] == b && data[16..24] == c
            && data[24..28] == d && data[28..32] == e && data[32..] == body
  {}

  lemma PreambleFields(body: Bytes)
    requires InMemory(|body|)
    ensures var data := Build(body);
            && data[..8] == Magic() && Field(data, 8, 4) == WIRE_VERSION && Field(data, 12, 4) == PREAMBLE
            && Field(data, 16, 8) == |body| && Field(data, 24, 4) == Crc(body) as int && Field(data, 28, 4) == 0
            && data[PREAMBLE..] == body
  {
    hide Crc, Le, FromLe, Pow256, Magic;
    Powers();
    var crc := Crc(body) as int;
    FromLeLe(WIRE_VERSION, 4);
    FromLeLe(PREAMBLE, 4);
    FromLeLe(|body|, 8);
    FromLeLe(crc, 4);
    FromLeLe(0, 4);
    Slices(Magic(), Le(WIRE_VERSION, 4), Le(PREAMBLE, 4), Le(|body|, 8), Le(crc, 4), Le(0, 4), body);
  }

  /** Every container that is built passes the checks and hands back its body. */
  lemma BuiltIsChecked(body: Bytes)
    requires InMemory(|body|)
    ensures Checked(Build(body)) == Some(body)
  {
    hide Crc, Field, Build, Le;
    BuildSize(body);
    PreambleFields(body);
  }

  lemma BuildSize(body: Bytes)
    ensures |Build(body)| == PREAMBLE + |body|
  {}

  // ---- tampering ----

  lemma SameField(s: Bytes, t: Bytes, at: nat, n: nat)
    requires at + n <= |s| && at + n <= |t| && s[at..at + n] == t[at..at + n]
    ensures Field(s, at, n) == Field(t, at, n)
  {}

  lemma OtherField(s: Bytes, t: Bytes, at: nat, n: nat)
    requires at + n <= |s| && at + n <= |t| && s[at..at + n] != t[at..at + n]
    ensures Field(s, at, n) != Field(t, at, n)
  {
    LeFromLe(s[at..at + n]);
    LeFromLe(t[at..at + n]);
  }

  /** No proper prefix is accepted, whatever the body decodes to. */
  lemma PrefixRejected(body: Bytes, n: nat, decode: Bytes -> Option<Body>)
    requires InMemory(|body|) && n < |Build(body)|
    ensures Parse(Build(body)[..n], decode) == None
  {
    hide Crc, Field, Build;
    BuildSize(body);
    PreambleFields(body);
    var data, cut := Build(body), Build(body)[..n];
    if n >= PREAMBLE {
      assert data[12..16] == cut[12..16] && data[16..24] == cut[16..24];
      SameField(data, cut, 12, 4);
      SameField(data, cut, 16, 8);
    }
  }

  /** Nothing may follow a container. */
  lemma ExtensionRejected(body: Bytes, more: Bytes, decode: Bytes -> Option<Body>)
    requires InMemory(|body|) && more != []
    ensures Parse(Build(body) + more, decode) == None
  {
    hide Crc, Field, Build;
    BuildSize(body);
    PreambleFields(body);
    var data, long := Build(body), Build(body) + more;
    assert data[12..16] == long[12..16] && data[16..24] == long[16..24];
    SameField(data, long, 12, 4);
    SameField(data, long, 16, 8);
  }

  /** A field of the preamble that the edit touches is no longer what was written. */
  lemma EditedField(s: Bytes, t: Bytes, i: nat, at: nat, n: nat)
    requires OneByteEdit(s, t, i) && at + n <= |s|
    ensures at <= i < at + n <==> Field(s, at, n) != Field(t, at, n)
  {
    if at <= i < at + n {
      assert s[at..at + n][i - at] != t[at..at + n][i - at];
      OtherField(s, t, at, n);
    } else {
      assert s[at..at + n] == t[at..at + n];
      SameField(s, t, at, n);
    }
  }

  /** Changing exactly one byte anywhere is noticed. */
  lemma EditRejected(body: Bytes, data: Bytes, i: nat, decode: Bytes -> Option<Body>)
    requires InMemory(|body|) && OneByteEdit(Build(body), data, i)
    ensures Parse(data, decode) == None
  {
    hide Crc, Field, Build;
    BuildSize(body);
    PreambleFields(body);
    var built := Build(body);
    if i < 8 {
      assert data[..8][i] != built[..8][i];
    } else {
      EditedField(built, data, i, 8, 4);
      EditedField(built, data, i, 12, 4);
      EditedField(built, data, i, 16, 8);
      EditedField(built, data, i, 24, 4);
      EditedField(built, data, i, 28, 4);
      if i >= PREAMBLE { EditedBody(body, built, data, i); }
      if 24 <= i < 28 { assert data[PREAMBLE..] == built[PREAMBLE..]; }
    }
  }

  lemma EditedBody(body: Bytes, built: Bytes, data: Bytes, i: nat)
    requires OneByteEdit(built, data, i) && PREAMBLE <= i && built[PREAMBLE..] == body
    ensures Crc(data[PREAMBLE..]) as int != Crc(body) as int
  {
    hide Crc;
    assert OneByteEdit(body, data[PREAMBLE..], i - PREAMBLE);
    EditChangesCrc(body, data[PREAMBLE..], i - PREAMBLE);
    WordsDiffer(Crc(body), Crc(data[PREAMBLE..]));
  }

  lemma WordsDiffer(a: bv32, b: bv32)
    requires a != b
    ensures a as int != b as int
  {
    WordBack(a);
    WordBack(b);
  }

  lemma WordBack(a: bv32)
    ensures (a as int) as bv32 == a
  {}

  /** A built container is accepted exactly when its body decodes to a content of the recorded identity. */
  lemma {:induction false} BuiltIsParsed(body: Bytes, decode: Bytes -> Option<Body>)
    requires InMemory(|body|)
    ensures Parse(Build(body), decode)
         == match decode(body)
            case None => None
            case Some(b) => if |b.content| < 0x8000_0000 && b.identity == Identity(b.content) then Some(b) else None
  {
    BuiltIsChecked(body);
  }

  // ---- what is accepted ----

  /** A container with `extra` bytes between the preamble of this version and the body. */
  function Extended(extra: Bytes, body: Bytes): Bytes {
    Magic() + Le(1, 4) + Le(32 + |extra|, 4) + Le(|body|, 8) + Le(Crc(body) as int, 4) + Le(0, 4) + extra + body
  }

  lemma FieldBytes(data: Bytes, at: nat, n: nat)
    requires at + n <= |data|
    ensures data[at..at + n] == Le(Field(data, at, n), n) && Field(data, at, n) < Pow256(n)
  {
    LeFromLe(data[at..at + n]);
  }

  lemma Cut(data: Bytes, p: nat)
    requires 32 <= p <= |data|
    ensures data == data[..8] + data[8..12] + data[12..16] + data[16..24] + data[24..28] + data[28..32] + data[32..p]
                    + data[p..]
  {}

  /** The checks accept these byte strings and no others; they hand back the body. */
  lemma AcceptedExactly(data: Bytes, body: Bytes)
    requires InMemory(|data|)
    ensures Checked(data) == Some(body)
        <==> exists extra: Bytes :: 32 + |extra| < 0x1_0000_0000 && data == Extended(extra, body)
  {
    hide Crc, Le, FromLe, Pow256, Magic, Checked, Extended;
    if Checked(data) == Some(body) {
      var extra := AcceptedShape(data, body);
    }
    forall extra: Bytes | 32 + |extra| < 0x1_0000_0000 && data == Extended(extra, body)
      ensures Checked(data) == Some(body)
    {
      ShapeAccepted(extra, body);
    }
  }

  lemma AcceptedShape(data: Bytes, body: Bytes) returns (extra: Bytes)
    requires Checked(data) == Some(body)
    ensures 32 + |extra| < 0x1_0000_0000 && data == Extended(extra, body)
  {
    hide Crc, Le, FromLe, Pow256, Magic, Field;
    Powers();
    var p := Field(data, 12, 4);
    FieldBytes(data, 8, 4);
    FieldBytes(data, 12, 4);
    FieldBytes(data, 16, 8);
    FieldBytes(data, 24, 4);
    FieldBytes(data, 28, 4);
    Cut(data, p);
    extra := data[32..p];
  }

  lemma ExtendedParts(extra: Bytes, body: Bytes)
    ensures var data := Extended(extra, body); var p := 32 + |extra|;
            && |data| == p + |body| && data[..8] == Magic() && data[8..12] == Le(1, 4) && data[12..16] == Le(p, 4)
            && data[16..24] == Le(|body|, 8) && data[24..28] == Le(Crc(body) as int, 4) && data[28..32] == Le(0, 4)
            && data[p..] == body
  {
    hide Crc, Le, Magic;
    var p := 32 + |extra|;
    var a, b, c, d, e := Le(1, 4), Le(p, 4), Le(|body|, 8), Le(Crc(body) as int, 4), Le(0, 4);
    Slices(Magic(), a, b, c, d, e, extra + body);
    assert Magic() + a + b + c + d + e + (extra + body) == Extended(extra, body);
  }

  lemma ShapeAccepted(extra: Bytes, body: Bytes)
    requires 32 + |extra| < 0x1_0000_0000 && InMemory(|Extended(extra, body)|)
    ensures Checked(Extended(extra, body)) == Some(body)
  {
    hide Crc, Le, FromLe, Pow256, Magic, Extended;
    Powers();
    ExtendedParts(extra, body);
    FromLeLe(1, 4);
    FromLeLe(32 + |extra|, 4);
    FromLeLe(|body|, 8);
    FromLeLe(Crc(body) as int, 4);
    FromLeLe(0, 4);
  }

  // ---- the code ----

  /** append_u32 and append_u64 */
  method Append(data: Bytes, value: nat, size: nat) returns (data': Bytes)
    ensures data' == data + Le(value, size)
  {
    data' := data;
    var rest, i := value, 0;
    while i < size
      invariant i <= size && data + Le(value, size) == data' + Le(rest, size - i)
    {
      assert Le(rest, size - i) == [rest % 256] + Le(rest / 256, size - i - 1);
      data' := data' + [rest % 256];
      rest := rest / 256;
      i := i + 1;
    }
  }

  method BuildState(body: Bytes) returns (state: Bytes)
    ensures state == Build(body)
  {
    hide Le, Crc;
    state := Magic();
    state := Append(state, WIRE_VERSION, 4);
    state := Append(state, PREAMBLE, 4);
    state := Append(state, |body|, 8);
    var crc := Crc32(body);
    state := Append(state, crc as int, 4);
    state := Append(state, 0, 4);
    state := state + body;
  }

  method ParseState(data: Bytes, decode: Bytes -> Option<Body>) returns (result: int, parsed: Option<Body>)
    ensures parsed == Parse(data, decode)
    ensures result == if parsed.Some? then 0 else -4
  {
    hide Crc, Identity, FromLe;
    result, parsed := -4, None;
    if |data| < PREAMBLE || data[..8] != Magic() { return; }
    var wireVersion, preambleSize := FromLe(data[8..12]), FromLe(data[12..16]);
    var bodySize, bodyCrc, reserved := FromLe(data[16..24]), FromLe(data[24..28]), FromLe(data[28..32]);
    if wireVersion != WIRE_VERSION || preambleSize < PREAMBLE || preambleSize > |data|
       || bodySize != |data| - preambleSize || reserved != 0 {
      return;
    }
    var body := data[preambleSize..];
    var crc := Crc32(body);
    if bodyCrc != crc as int { return; }
    var container := decode(body);
    if container.None? || |container.value.content| > MAX_CONTENT { return; }
    var identity := ContentIdentity(container.value.content);
    if container.value.identity != identity { return; }
    result, parsed := 0, container;
  }
}
