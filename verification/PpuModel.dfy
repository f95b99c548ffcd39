/** The PPU's dot clock and sprite pipeline as values: what one call of each source function does
    (src/systems/nes/nes_ppu.cpp). Background fetches, register writes and the palette are not part of it. */
module PpuModel {
  import opened Types

  // ---- sprite evaluation ----

  type SecondaryOam = s: seq<u8> | |s| == 32 witness seq(32, i => 0)
  type Oam = s: seq<u8> | |s| == 256 witness seq(256, i => 0)
  type SecAddr = x: int | 0 <= x <= 32
  type SpriteCount = x: int | 0 <= x <= 8

  /** The evaluation unit: `h` and `l` select the OAM byte, `sec` the next free secondary OAM byte. */
  datatype Eval = Eval(addr: u8, buffer: u8, secondary: SecondaryOam, sec: SecAddr, inRange: bool, zeroAdded: bool,
                       zeroVisible: bool, h: u6, l: u2, bug: u2, done: bool, count: SpriteCount, overflow: bool)

  predicate InRange(line: int, y: u8, large: bool) { y <= line < y + if large then 16 else 8 }

  function StartEval(e: Eval): Eval {
    e.(zeroAdded := false, inRange := false, sec := 0, bug := 0, done := false, h := e.addr / 4, l := e.addr % 4)
  }

  function EndEval(e: Eval): Eval { e.(zeroVisible := e.zeroAdded, count := (e.sec + 3) / 4) }

  function NextSprite(h: u6): u6 { (h + 1) % 64 }

  /** On to the next sprite; past the last one OAM is exhausted. */
  function SkipStep(e: Eval): Eval { e.(h := NextSprite(e.h), l := 0, done := e.done || e.h == 63) }

  /** A byte of a sprite on the line is kept. */
  function KeepStep(e: Eval, first: bool, line: int, large: bool): Eval
    requires e.sec < 32
  {
    var d := e.(zeroAdded := e.zeroAdded || first, sec := e.sec + 1);
    EndEntry(if e.l == 3 then SkipStep(d) else d.(l := e.l + 1), line, large)
  }

  /** Four bytes complete an entry; a misaligned address is put right unless the last byte looks in range. */
  function EndEntry(e: Eval, line: int, large: bool): Eval {
    if e.sec % 4 != 0 then e
    else e.(inRange := false, l := if e.l != 0 && !InRange(line, e.buffer, large) then 0 else e.l)
  }

  /** There is room: the byte is copied, and kept if its sprite is in range. */
  function CopyStep(e: Eval, first: bool, line: int, large: bool): Eval
    requires e.sec < 32
  {
    var c := e.(secondary := e.secondary[e.sec := e.buffer]);
    if e.inRange then KeepStep(c, first, line, large) else SkipStep(c)
  }

  /** There is no room: the diagonal overflow scan. */
  function OverflowStep(e: Eval): Eval {
    var c := e.(buffer := e.secondary[e.sec % 32]);
    if !e.inRange then c.(h := NextSprite(e.h), l := (e.l + 1) % 4, done := e.h == 63)
    else
      var n := if e.l == 3 then c.(overflow := true, h := NextSprite(e.h), l := 0)
               else c.(overflow := true, l := e.l + 1);
      BugStep(n)
  }

  function BugStep(e: Eval): Eval {
    if e.bug == 0 then e.(bug := 3)
    else if e.bug == 1 then e.(bug := 0, done := true, l := 0)
    else e.(bug := e.bug - 1)
  }

  function ByteStep(e: Eval, first: bool, line: int, large: bool): Eval {
    if e.done then e.(h := NextSprite(e.h), buffer := if e.sec >= 32 then e.secondary[e.sec % 32] else e.buffer)
    else
      var r := e.(inRange := e.inRange || InRange(line, e.buffer, large));
      if e.sec < 32 then CopyStep(r, first, line, large) else OverflowStep(r)
  }

  /** A byte, and the OAM address for the next one. */
  function WriteStep(e: Eval, first: bool, line: int, large: bool): Eval {
    var s := ByteStep(e, first, line, large);
    s.(addr := s.l + s.h * 4)
  }

  /** process_sprite_evaluation at dot `dot` with rendering on. */
  function EvalDot(e: Eval, oam: Oam, dot: nat, line: int, large: bool): Eval
    requires 1 <= dot <= 256
  {
    if dot < 65 then e.(buffer := 0xFF, secondary := e.secondary[(dot - 1) / 2 := 0xFF])
    else if dot % 2 == 1 then
      var s := if dot == 65 then StartEval(e) else e;
      s.(buffer := oam[s.addr])
    else WriteStep(if dot == 256 then EndEval(e) else e, dot == 66, line, large)
  }

  // ---- sprite loading ----

  /** Register settings that stay put between register writes; `base` is the sprite pattern table. */
  datatype Settings = Settings(rendering: bool, large: bool, base: u16, noSkip: bool)

  /** What the PPU bus returns at a dot of the line for an address. */
  type Bus = (nat, int) -> u8

  datatype SpriteInfo = SpriteInfo(x: u8, low: u8, high: u8, palette: u8, mirror: bool, behind: bool)

  type Tiles = s: seq<SpriteInfo> | |s| == 64 witness seq(64, i => SpriteInfo(0, 0, 0, 0, false, false))
  type Columns = s: seq<bool> | |s| == 257 witness seq(257, i => false)

  /** `has` is `has_sprite_`, an index over screen columns of the loaded tiles. */
  datatype SpriteLine = SpriteLine(index: nat, has: Columns, tiles: Tiles)

  /** Columns x+1 .. x+8. */
  predicate Covers(x: u8, column: int) { 0 <= column - x - 1 < 8 }

  function Mark(has: Columns, x: u8): Columns {
    seq(257, c requires 0 <= c < 257 => has[c] || Covers(x, c))
  }

  /** The row of the pattern that the line needs, from the bottom when flipped. */
  function RowOf(y: u8, attributes: u8, line: int, large: bool): int {
    if Bit(attributes, 7) then (if large then 15 else 7) - (line - y) else line - y
  }

  function Or8(a: u8, b: u8): u8 { ((a as bv8) | (b as bv8)) as int }

  /** Address of the pattern row, in the source's 8-bit row arithmetic. */
  function TileAddress(y: u8, tile: u8, attributes: u8, line: int, st: Settings): int {
    var row := RowOf(y, attributes, line, st.large) % 0x100;
    if st.large
    then tile % 2 * 0x1000 + tile / 2 * 32 + if row >= 8 then row + 8 else row
    else st.base + row % 16 + 16 * Or8(tile, row / 16)
  }

  /** What is kept of a sprite whose pattern is fetched at dot `dot`. */
  function Info(y: u8, tile: u8, attributes: u8, x: u8, dot: nat, line: int, st: Settings, bus: Bus): SpriteInfo {
    var address := TileAddress(y, tile, attributes, line, st);
    SpriteInfo(x, bus(dot, address), bus(dot, address + 8), attributes % 4 * 4 + 16,
               Bit(attributes, 6), Bit(attributes, 5))
  }

  /** load_sprite_tile_info */
  function LoadSprite(s: SpriteLine, secondary: SecondaryOam, count: SpriteCount, dot: nat, line: int, st: Settings,
                      bus: Bus): SpriteLine
    requires s.index < 8
  {
    var k := s.index * 4;
    var y, tile, attributes, x := secondary[k], secondary[k + 1], secondary[k + 2], secondary[k + 3];
    if s.index < count && y < 240
    then SpriteLine(s.index + 1, if line >= 0 then Mark(s.has, x) else s.has,
                    s.tiles[s.index := Info(y, tile, attributes, x, dot, line, st, bus)])
    else s.(index := s.index + 1)
  }

  /** sprite_index_ stays inside secondary OAM. */
  predicate IndexOk(s: SpriteLine, dot: nat) { 257 < dot <= 320 ==> s.index <= (dot - 254) / 8 }

  /** Dots 257-320: clear the index, then load a sprite every eight dots while rendering. */
  function LoadDot(s: SpriteLine, e: Eval, dot: nat, line: int, st: Settings, bus: Bus): (t: SpriteLine)
    requires 257 <= dot <= 320 && IndexOk(s, dot)
    ensures IndexOk(t, dot + 1)
  {
    var c := if dot == 257 then s.(index := 0, has := seq(257, i => false)) else s;
    if st.rendering && (dot - 257) % 8 == 4 then LoadSprite(c, e.secondary, e.count, dot, line, st, bus) else c
  }

  // ---- pixels ----

  /** The colour of a sprite's pattern at a column it covers. */
  function SpriteColor(info: SpriteInfo, shift: u3): u2 {
    var bit := if info.mirror then shift else 7 - shift;
    (if Bit(info.low, bit) then 1 else 0) + if Bit(info.high, bit) then 2 else 0
  }

  predicate Opaque(info: SpriteInfo, column: int) {
    Covers(info.x, column) && SpriteColor(info, column - info.x - 1) != 0
  }

  /** The background pixel, and the part of $2001 that get_pixel_color looks at. */
  datatype Backdrop = Backdrop(color: u2, palette: u5, minSprite: nat, minStandard: nat, enabled: bool)

  /** The first sprite to show at a column; `count` if there is none. */
  function FirstOpaque(tiles: Tiles, from: nat, count: SpriteCount, column: int): (i: nat)
    requires from <= count
    ensures from <= i <= count && (i < count ==> Opaque(tiles[i], column))
    ensures forall j :: from <= j < i ==> !Opaque(tiles[j], column)
    decreases count - from
  {
    if from == count || Opaque(tiles[from], column) then from else FirstOpaque(tiles, from + 1, count, column)
  }

  lemma FirstOpaqueFrom(tiles: Tiles, i: nat, count: SpriteCount, column: int)
    requires i < count
    ensures FirstOpaque(tiles, i, count, column)
         == if Opaque(tiles[i], column) then i else FirstOpaque(tiles, i + 1, count, column)
  {}

  /** get_pixel_color: the palette index and the new sprite-zero flag; `look` is whether the scan is done. */
  function Pixel(tiles: Tiles, e: Eval, look: bool, column: int, b: Backdrop, hit: bool): (u8, bool) {
    var i := if look && column > b.minSprite then FirstOpaque(tiles, 0, e.count, column) else e.count;
    var background := b.palette + b.color;
    if i == e.count then (background, hit)
    else
      (if b.color == 0 || !tiles[i].behind
       then (tiles[i].palette + SpriteColor(tiles[i], column - tiles[i].x - 1)) % 256 else background,
       hit || (i == 0 && b.color != 0 && e.zeroVisible && column != 256 && b.enabled && column > b.minStandard))
  }

  // ---- the dot clock ----

  type Dot = x: int | 0 <= x <= 340
  type Scanline = x: int | -1 <= x <= 260

  datatype Position = Position(dot: Dot, line: Scanline, frame: u32)

  /** Where the next dot is: `skip` says that rendering is on and the skip of odd frames not disabled. */
  function NextDot(p: Position, skip: bool): Position {
    if p.dot < 340 then
      if p.line == -1 && p.dot == 338 && p.frame % 2 == 1 && skip then p.(dot := 340) else p.(dot := p.dot + 1)
    else
      var line := if p.line == 260 then -1 else p.line + 1;
      Position(0, line, if line == 240 then (p.frame + 1) % 0x1_0000_0000 else p.frame)
  }

  datatype Ppu = Ppu(pos: Position, oam: Oam, eval: Eval, sprites: SpriteLine)

  const BLANK_TILE := SpriteInfo(0, 0, 0, 0, false, false)

  /** After power-on. */
  function PowerOn(): Ppu {
    Ppu(Position(340, -1, 1), seq(256, i => 0),
        Eval(0, 0, seq(32, i => 0), 0, false, false, false, 0, 0, 0, false, 0, false),
        SpriteLine(0, seq(257, i => false), seq(64, i => BLANK_TILE)))
  }

  predicate PpuOk(p: Ppu) { p.pos.line < 240 ==> IndexOk(p.sprites, p.pos.dot + 1) }

  /** process_scanline_impl, as far as sprites and the position go. */
  function ScanlineDot(p: Ppu, st: Settings, bus: Bus): (q: Ppu)
    requires 1 <= p.pos.dot && IndexOk(p.sprites, p.pos.dot)
    ensures PpuOk(q)
  {
    var dot, line := p.pos.dot, p.pos.line;
    if dot <= 256 then
      if !st.rendering then p
      else if line >= 0 then p.(eval := EvalDot(p.eval, p.oam, dot, line, st.large))
      else if dot < 9 && p.eval.addr >= 8 then
        p.(oam := p.oam[dot - 1 := p.oam[p.eval.addr / 8 * 8 + dot - 1]])
      else p
    else if dot <= 320 then
      p.(sprites := LoadDot(p.sprites, p.eval, dot, line, st, bus),
         eval := if st.rendering then p.eval.(addr := 0) else p.eval)
    else if !st.rendering then p
    else if dot == 321 then p.(eval := p.eval.(buffer := p.eval.secondary[0]))
    else if dot == 339 && line == -1 && p.pos.frame % 2 == 1 && !st.noSkip then p.(pos := p.pos.(dot := 340))
    else p
  }

  /** process_scanline_first_cycle: a new line; the pre-render line clears the sprite count and the flag. */
  function FirstDot(p: Ppu): Ppu {
    var line := if p.pos.line == 260 then -1 else p.pos.line + 1;
    p.(pos := Position(0, line, if line == 240 then (p.pos.frame + 1) % 0x1_0000_0000 else p.pos.frame),
       eval := if line == -1 then p.eval.(count := 0, overflow := false) else p.eval)
  }

  /** exec() */
  function Exec(p: Ppu, st: Settings, bus: Bus): (q: Ppu)
    requires PpuOk(p)
    ensures PpuOk(q)
  {
    if p.pos.dot == 340 then FirstDot(p)
    else
      var next := p.(pos := p.pos.(dot := p.pos.dot + 1));
      if p.pos.line < 240 then ScanlineDot(next, st, bus) else next
  }

  /** Three bits of an attribute byte are not stored. */
  function Stored(address: u8, value: u8): u8 { if address % 4 == 2 then value - value / 4 % 8 * 4 else value }

  /** A write to $2004. */
  function WriteOam(p: Ppu, st: Settings, value: u8): Ppu {
    var address := p.eval.addr;
    if p.pos.line >= 240 || !st.rendering
    then p.(oam := p.oam[address := Stored(address, value)], eval := p.eval.(addr := (address + 1) % 0x100))
    else p.(eval := p.eval.(addr := (address + 4) % 0x100))
  }

  lemma ExecPosition(p: Ppu, st: Settings, bus: Bus)
    requires PpuOk(p)
    ensures Exec(p, st, bus).pos == NextDot(p.pos, st.rendering && !st.noSkip)
  {}

  /** n dots. */
  function Execs(p: Ppu, st: Settings, bus: Bus, n: nat): (q: Ppu)
    requires PpuOk(p)
    ensures PpuOk(q)
  {
    if n == 0 then p else Exec(Execs(p, st, bus, n - 1), st, bus)
  }

  lemma {:induction false} ExecsSum(p: Ppu, st: Settings, bus: Bus, m: nat, n: nat)
    requires PpuOk(p)
    ensures Execs(Execs(p, st, bus, m), st, bus, n) == Execs(p, st, bus, m + n)
  {
    if n > 0 { ExecsSum(p, st, bus, m, n - 1); }
  }

  lemma ExecsTwo(p: Ppu, st: Settings, bus: Bus)
    requires PpuOk(p)
    ensures Execs(p, st, bus, 0) == p && Execs(p, st, bus, 1) == Exec(p, st, bus)
    ensures Execs(p, st, bus, 2) == Exec(Exec(p, st, bus), st, bus)
  {
    assert Execs(p, st, bus, 1) == Exec(Execs(p, st, bus, 0), st, bus);
  }
}
