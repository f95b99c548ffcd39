/** One scanline: what is evaluated on it is what the next line shows, and `has_sprite_` indexes it. */
module SpriteLines {
  import opened ByteBits
  import opened Types
  import opened PpuModel
  import opened SpriteEvaluation

  // ---- dots 257-320 ----

  /** Dots from .. to-1. */
  function LoadDots(s: SpriteLine, e: Eval, from: nat, to: nat, line: int, st: Settings, bus: Bus): SpriteLine
    requires 257 <= from <= to <= 321 && IndexOk(s, from)
    decreases 321 - from
  {
    if from == to then s else LoadDots(LoadDot(s, e, from, line, st, bus), e, from + 1, to, line, st, bus)
  }

  predicate Loads(e: Eval, k: nat) requires k < 8 { k < e.count && e.secondary[4 * k] < 240 }

  /** The tile made of secondary OAM entry k, fetched at its own dot. */
  function TileOf(e: Eval, k: nat, line: int, st: Settings, bus: Bus): SpriteInfo
    requires k < 8
  {
    Info(e.secondary[4 * k], e.secondary[4 * k + 1], e.secondary[4 * k + 2], e.secondary[4 * k + 3], 261 + 8 * k,
         line, st, bus)
  }

  /** After n loads that started from `tiles`. */
  ghost predicate Loaded(s: SpriteLine, tiles: Tiles, n: nat, e: Eval, line: int, st: Settings, bus: Bus)
    requires n <= 8
  {
    && s.index == n
    && (forall k :: 0 <= k < 64 ==>
          s.tiles[k] == if k < n && Loads(e, k) then TileOf(e, k, line, st, bus) else tiles[k])
    && (forall c :: 0 <= c <= 256 ==>
          (s.has[c] <==> line >= 0 && exists k :: 0 <= k < n && Loads(e, k) && Covers(e.secondary[4 * k + 3], c)))
  }

  lemma LoadOne(s: SpriteLine, tiles: Tiles, n: nat, e: Eval, line: int, st: Settings, bus: Bus)
    requires n < 8 && Loaded(s, tiles, n, e, line, st, bus)
    ensures Loaded(LoadSprite(s, e.secondary, e.count, 261 + 8 * n, line, st, bus), tiles, n + 1, e, line, st, bus)
  {
    hide Info, Covers, Mark;
    var t := LoadSprite(s, e.secondary, e.count, 261 + 8 * n, line, st, bus);
    var x := e.secondary[4 * n + 3];
    forall c | 0 <= c <= 256
      ensures t.has[c] <==> line >= 0 && exists k :: 0 <= k < n + 1 && Loads(e, k) && Covers(e.secondary[4 * k + 3], c)
    {
      MarkAt(s.has, x, c);
      if line >= 0 && Loads(e, n) && Covers(x, c) { assert Covers(e.secondary[4 * n + 3], c); }
    }
  }

  lemma MarkAt(has: Columns, x: u8, c: nat)
    requires c <= 256
    ensures Mark(has, x)[c] == (has[c] || Covers(x, c))
  {}

  lemma NothingLoaded(s: SpriteLine, e: Eval, line: int, st: Settings, bus: Bus)
    requires s.index == 0 && s.has == seq(257, i => false)
    ensures Loaded(s, s.tiles, 0, e, line, st, bus)
  {}

  /** The first dot empties the index; every eighth dot from 261 on loads one sprite. */
  lemma {:induction false} LoadDotsLoad(s: SpriteLine, tiles: Tiles, e: Eval, dot: nat, line: int, st: Settings,
                                        bus: Bus)
    requires 257 <= dot <= 321 && IndexOk(s, dot) && st.rendering
    requires if dot == 257 then s.tiles == tiles else Loaded(s, tiles, (dot - 254) / 8, e, line, st, bus)
    ensures Loaded(LoadDots(s, e, dot, 321, line, st, bus), tiles, 8, e, line, st, bus)
    decreases 321 - dot
  {
    hide Loaded, LoadSprite;
    if dot < 321 {
      var t := LoadDot(s, e, dot, line, st, bus);
      if dot == 257 {
        NothingLoaded(t, e, line, st, bus);
      } else if (dot - 257) % 8 == 4 {
        LoadOne(s, tiles, (dot - 254) / 8, e, line, st, bus);
      }
      LoadDotsLoad(t, tiles, e, dot + 1, line, st, bus);
    }
  }

  // ---- a whole line ----

  predicate LineStart(p: Ppu, st: Settings) { p.pos.dot == 0 && 0 <= p.pos.line < 240 && st.rendering }

  lemma {:induction false} EvaluationPhase(p: Ppu, st: Settings, bus: Bus, n: nat)
    requires LineStart(p, st) && n <= 256
    ensures Execs(p, st, bus, n)
         == p.(pos := p.pos.(dot := n), eval := EvalDots(p.eval, p.oam, 1, n + 1, p.pos.line, st.large))
  {
    hide EvalDot;
    if n > 0 {
      EvaluationPhase(p, st, bus, n - 1);
      EvalDotsSplit(p.eval, p.oam, 1, n, n + 1, p.pos.line, st.large);
      var e := EvalDots(p.eval, p.oam, 1, n, p.pos.line, st.large);
      assert EvalDots(e, p.oam, n, n + 1, p.pos.line, st.large) == EvalDot(e, p.oam, n, p.pos.line, st.large);
    }
  }

  lemma {:induction false} LoadDotsSplit(s: SpriteLine, e: Eval, from: nat, to: nat, line: int, st: Settings, bus: Bus)
    requires 257 <= from <= to <= 320 && IndexOk(s, from)
    ensures var t := LoadDots(s, e, from, to, line, st, bus);
            IndexOk(t, to) && LoadDots(s, e, from, to + 1, line, st, bus) == LoadDot(t, e, to, line, st, bus)
    decreases 321 - from
  {
    hide LoadDot, IndexOk;
    if from < to { LoadDotsSplit(LoadDot(s, e, from, line, st, bus), e, from + 1, to, line, st, bus); }
  }

  lemma LoadingDot(p: Ppu, st: Settings, bus: Bus)
    requires PpuOk(p) && 256 <= p.pos.dot < 320 && 0 <= p.pos.line < 240 && st.rendering
    ensures var dot, e := p.pos.dot + 1, p.eval.(addr := 0);
            Exec(p, st, bus) == Ppu(p.pos.(dot := dot), p.oam, e, LoadDot(p.sprites, e, dot, p.pos.line, st, bus))
  {
    hide LoadSprite;
  }

  lemma {:induction false} LoadingPhase(p: Ppu, st: Settings, bus: Bus, n: nat)
    requires LineStart(p, st) && 257 <= n <= 320
    ensures var e := EvalDots(p.eval, p.oam, 1, 257, p.pos.line, st.large).(addr := 0);
            var t := LoadDots(p.sprites, e, 257, n + 1, p.pos.line, st, bus);
            Execs(p, st, bus, n) == Ppu(p.pos.(dot := n), p.oam, e, t)
  {
    hide LoadDot, EvalDots, Exec;
    var f := EvalDots(p.eval, p.oam, 1, 257, p.pos.line, st.large);
    LoadDotsSplit(p.sprites, f.(addr := 0), 257, n, p.pos.line, st, bus);
    if n == 257 { EvaluationPhase(p, st, bus, 256); } else { LoadingPhase(p, st, bus, n - 1); }
    LoadingDot(Execs(p, st, bus, n - 1), st, bus);
  }

  lemma RestDot(p: Ppu, st: Settings, bus: Bus)
    requires PpuOk(p) && 320 <= p.pos.dot < 340 && 0 <= p.pos.line < 240
    ensures var q := Exec(p, st, bus);
            q == p.(pos := p.pos.(dot := p.pos.dot + 1), eval := p.eval.(buffer := q.eval.buffer))
  {
    hide EvalDot, LoadDot;
  }

  lemma {:induction false} RestOfLine(p: Ppu, st: Settings, bus: Bus, n: nat)
    requires LineStart(p, st) && 320 <= n <= 340
    ensures var q, f := Execs(p, st, bus, n), Execs(p, st, bus, 320);
            q == f.(pos := f.pos.(dot := n), eval := f.eval.(buffer := q.eval.buffer))
  {
    hide Exec;
    LoadingPhase(p, st, bus, 320);
    if n > 320 {
      RestOfLine(p, st, bus, n - 1);
      RestDot(Execs(p, st, bus, n - 1), st, bus);
    }
  }

  // ---- what the line leaves behind ----

  /** Where row r of a sprite's pattern is; an 8x16 sprite has rows 8-15 in the second tile of its pair. */
  function RowAddress(tile: u8, r: int, st: Settings): int {
    if st.large then tile % 2 * 0x1000 + (tile / 2 * 2 + r / 8) * 16 + r % 8 else st.base + tile * 16 + r
  }

  /** The row of a sprite that the line cuts, from the bottom when attribute bit 7 flips it. */
  function SpriteRow(y: u8, attributes: u8, line: int, large: bool): int {
    if attributes / 128 == 0 then line - y else if large then 15 - (line - y) else 7 - (line - y)
  }

  /** For a sprite on the line the 8-bit row arithmetic is exact: the address is that of row r of the sprite,
      counted from the bottom when flipped. */
  lemma RowInTile(y: u8, tile: u8, attributes: u8, line: int, st: Settings)
    requires y <= line && line < (if st.large then 16 else 8) + y
    ensures var r := SpriteRow(y, attributes, line, st.large);
            && 0 <= r < (if st.large then 16 else 8)
            && TileAddress(y, tile, attributes, line, st) == RowAddress(tile, r, st)
  {
    hide Or8;
    OrZero(tile);
  }

  lemma OrZero(tile: u8)
    ensures Or8(tile, 0) == tile
  {
    ByteBack(tile);
    OrZeroBits(tile as bv8);
  }

  lemma OrZeroBits(b: bv8)
    ensures b | 0 == b
  {}

  /** The tile of OAM sprite i when it is the k-th one on the line: both planes of the row that the line cuts, fetched
      at the k-th sprite's dot, with the sprite's column, palette, mirroring and priority. */
  function OamTile(oam: Oam, i: u6, k: nat, line: int, st: Settings, bus: Bus): SpriteInfo {
    var at: int := 4 * i;
    var row := RowAddress(oam[at + 1], SpriteRow(oam[at], oam[at + 2], line, st.large), st);
    SpriteInfo(oam[at + 3], bus(261 + 8 * k, row), bus(261 + 8 * k, row + 8), oam[at + 2] % 4 * 4 + 16,
               oam[at + 2] / 64 % 2 == 1, oam[at + 2] / 32 % 2 == 1)
  }

  lemma TileByRow(oam: Oam, i: u6, k: nat, line: int, st: Settings, bus: Bus)
    requires Visible(oam, i, line, st.large)
    ensures var at: int := 4 * i;
            OamTile(oam, i, k, line, st, bus)
            == Info(oam[at], oam[at + 1], oam[at + 2], oam[at + 3], 261 + 8 * k, line, st, bus)
  {
    hide RowAddress, TileAddress, SpriteRow;
    RowInTile(oam[4 * i as int], oam[4 * i as int + 1], oam[4 * i as int + 2], line, st);
  }

  /** The sprites the line shows: the first eight on it. */
  function Shown(oam: Oam, line: int, large: bool): (shown: seq<u6>)
    ensures |shown| <= 8
  {
    var all := Found(oam, 64, line, large);
    if |all| <= 8 then all else all[..8]
  }

  lemma {:induction false} EntryAt(oam: Oam, sprites: seq<u6>, k: nat)
    requires k < |sprites|
    ensures var i: int := sprites[k];
            Entries(oam, sprites)[4 * k..4 * k + 4] == oam[4 * i..4 * i + 4]
  {
    if k < |sprites| - 1 {
      EntryAt(oam, sprites[..|sprites| - 1], k);
      assert Entries(oam, sprites)[4 * k..4 * k + 4] == Entries(oam, sprites[..|sprites| - 1])[4 * k..4 * k + 4];
    }
  }

  /** The k-th entry in secondary OAM is the k-th sprite shown, which is on the line, and starts above line 240. */
  lemma ShownEntry(oam: Oam, line: int, large: bool, secondary: SecondaryOam, k: nat)
    requires line < 240 && k < |Shown(oam, line, large)|
    requires secondary[..4 * |Shown(oam, line, large)|] == Entries(oam, Shown(oam, line, large))
    ensures Visible(oam, Shown(oam, line, large)[k], line, large)
    ensures var i: int := Shown(oam, line, large)[k];
            && secondary[4 * k] == oam[4 * i] < 240 && secondary[4 * k + 1] == oam[4 * i + 1]
            && secondary[4 * k + 2] == oam[4 * i + 2] && secondary[4 * k + 3] == oam[4 * i + 3]
  {
    hide Found, Entries;
    var shown := Shown(oam, line, large);
    var i: int := shown[k];
    EntryAt(oam, shown, k);
    assert shown[k] in Found(oam, 64, line, large);
    var four := secondary[..4 * |shown|][4 * k..4 * k + 4];
    assert four == oam[4 * i..4 * i + 4];
    assert four[0] == secondary[4 * k] && four[1] == secondary[4 * k + 1];
    assert four[2] == secondary[4 * k + 2] && four[3] == secondary[4 * k + 3];
  }

  /** The pipeline holds exactly the sprites shown, in order, and the index knows their columns. */
  ghost predicate Ready(q: Ppu, oam: Oam, line: int, st: Settings, bus: Bus) {
    var shown := Shown(oam, line, st.large);
    && q.eval.count == |shown| && q.eval.zeroVisible == Visible(oam, 0, line, st.large)
    && (forall k :: 0 <= k < |shown| ==> q.sprites.tiles[k] == OamTile(oam, shown[k], k, line, st, bus))
    && (forall c :: 1 <= c <= 256 ==>
          (q.sprites.has[c] <==> exists k :: 0 <= k < |shown| && Covers(q.sprites.tiles[k].x, c)))
  }

  lemma LoadedShown(s: SpriteLine, tiles: Tiles, e: Eval, oam: Oam, line: int, st: Settings, bus: Bus)
    requires 0 <= line < 240 && Loaded(s, tiles, 8, e, line, st, bus)
    requires var shown := Shown(oam, line, st.large);
             e.count == |shown| && e.secondary[..4 * |shown|] == Entries(oam, shown)
    ensures var shown := Shown(oam, line, st.large);
            && (forall k :: 0 <= k < |shown| ==> s.tiles[k] == OamTile(oam, shown[k], k, line, st, bus))
            && (forall c :: 1 <= c <= 256 ==>
                  (s.has[c] <==> exists k :: 0 <= k < |shown| && Covers(s.tiles[k].x, c)))
  {
    hide Shown, Entries, TileAddress, RowAddress, RowOf, Visible, Bit, Covers;
    var shown := Shown(oam, line, st.large);
    forall k | 0 <= k < |shown|
      ensures Loads(e, k) && s.tiles[k] == OamTile(oam, shown[k], k, line, st, bus)
           && s.tiles[k].x == e.secondary[4 * k + 3]
    {
      ShownEntry(oam, line, st.large, e.secondary, k);
      TileByRow(oam, shown[k], k, line, st, bus);
    }
    forall c | 1 <= c <= 256
      ensures s.has[c] <==> exists k :: 0 <= k < |shown| && Covers(s.tiles[k].x, c)
    {
      if s.has[c] {
        var k :| 0 <= k < 8 && Loads(e, k) && Covers(e.secondary[4 * k + 3], c);
        assert Covers(s.tiles[k].x, c);
      }
    }
  }

  lemma EvaluationShows(e: Eval, oam: Oam, line: int, large: bool)
    requires e.addr == 0
    ensures var f, shown := EvalDots(e, oam, 1, 257, line, large), Shown(oam, line, large);
            && f.count == |shown| && f.secondary[..4 * |shown|] == Entries(oam, shown)
            && f.zeroVisible == Visible(oam, 0, line, large)
            && (|Found(oam, 64, line, large)| < 8 ==> f.overflow == e.overflow)
  {
    hide EvalDots, Found, Entries, Visible;
    EvaluationFindsFirstEight(e, oam, line, large);
    var all := Found(oam, 64, line, large);
    assert all[..|all|] == all;
  }

  lemma LoadingReadies(s: SpriteLine, e: Eval, oam: Oam, line: int, st: Settings, bus: Bus)
    requires 0 <= line < 240 && st.rendering && IndexOk(s, 257)
    requires var shown := Shown(oam, line, st.large);
             e.count == |shown| && e.secondary[..4 * |shown|] == Entries(oam, shown)
    ensures var t, shown := LoadDots(s, e, 257, 321, line, st, bus), Shown(oam, line, st.large);
            && (forall k :: 0 <= k < |shown| ==> t.tiles[k] == OamTile(oam, shown[k], k, line, st, bus))
            && (forall c :: 1 <= c <= 256 ==>
                  (t.has[c] <==> exists k :: 0 <= k < |shown| && Covers(t.tiles[k].x, c)))
  {
    hide LoadDots, Loaded, Shown, Entries, OamTile, Covers;
    LoadDotsLoad(s, s.tiles, e, 257, line, st, bus);
    LoadedShown(LoadDots(s, e, 257, 321, line, st, bus), s.tiles, e, oam, line, st, bus);
  }

  /** A whole visible line with rendering on, the sprite size fixed and the OAM address at 0: its 340 dots
      leave the pipeline ready with the first eight sprites on it, and the OAM address back at 0. */
  lemma LineReadiesSprites(p: Ppu, st: Settings, bus: Bus)
    requires LineStart(p, st) && p.eval.addr == 0
    ensures var q := Execs(p, st, bus, 340);
            && q.pos == p.pos.(dot := 340) && q.oam == p.oam && q.eval.addr == 0
            && Ready(q, p.oam, p.pos.line, st, bus)
            && (|Found(p.oam, 64, p.pos.line, st.large)| < 8 ==> q.eval.overflow == p.eval.overflow)
  {
    hide Execs, EvalDots, Found, Entries, Visible, LoadDots, Shown, OamTile, Covers;
    var line := p.pos.line;
    RestOfLine(p, st, bus, 340);
    LoadingPhase(p, st, bus, 320);
    EvaluationShows(p.eval, p.oam, line, st.large);
    LoadingReadies(p.sprites, EvalDots(p.eval, p.oam, 1, 257, line, st.large).(addr := 0), p.oam, line, st, bus);
  }

  // ---- what the next line shows ----

  /** While the next line is drawn, evaluation for the line after it does not disturb the pipeline. */
  lemma {:induction false} DrawingKeeps(q: Ppu, st: Settings, bus: Bus, column: nat)
    requires q.pos.dot == 340 && 0 <= q.pos.line < 239 && 1 <= column <= 256 && st.rendering
    ensures var r := Execs(q, st, bus, column);
            && r.pos == Position(column - 1, q.pos.line + 1, q.pos.frame) && r.sprites == q.sprites
            && r.eval.count == q.eval.count && r.eval.zeroVisible == q.eval.zeroVisible
            && (column == 1 ==> r.eval.addr == q.eval.addr)
  {
    hide EvalDot;
    if column > 1 {
      DrawingKeeps(q, st, bus, column - 1);
      var r := Execs(q, st, bus, column - 1);
      EvalDotKeeps(r.eval, r.oam, column - 1, r.pos.line, st.large);
    }
  }

  lemma EvalDotKeeps(e: Eval, oam: Oam, dot: nat, line: int, large: bool)
    requires 1 <= dot < 256
    ensures var f := EvalDot(e, oam, dot, line, large); f.count == e.count && f.zeroVisible == e.zeroVisible
  {
    hide WriteStep;
    if dot >= 65 && dot % 2 == 0 { WriteStepKeeps(e, dot == 66, line, large); }
  }

  lemma WriteStepKeeps(e: Eval, first: bool, line: int, large: bool)
    ensures var f := WriteStep(e, first, line, large); f.count == e.count && f.zeroVisible == e.zeroVisible
  {
    hide InRange, CopyStep, OverflowStep;
    var r := e.(inRange := e.inRange || InRange(line, e.buffer, large));
    OverflowKeeps(r);
    if e.sec < 32 { CopyKeeps(r, first, line, large); }
  }

  lemma CopyKeeps(e: Eval, first: bool, line: int, large: bool)
    requires e.sec < 32
    ensures var f := CopyStep(e, first, line, large); f.count == e.count && f.zeroVisible == e.zeroVisible
  {}

  /** The `has_sprite_` check never changes a pixel: where it fails no sprite would have been found. */
  lemma CheckChangesNothing(q: Ppu, oam: Oam, line: int, st: Settings, bus: Bus, column: nat, b: Backdrop, hit: bool)
    requires Ready(q, oam, line, st, bus) && 1 <= column <= 256
    ensures Pixel(q.sprites.tiles, q.eval, q.sprites.has[column], column, b, hit)
         == Pixel(q.sprites.tiles, q.eval, true, column, b, hit)
  {
    hide Shown, SpriteColor, Info, Covers;
    var i := FirstOpaque(q.sprites.tiles, 0, q.eval.count, column);
    if i < q.eval.count { assert Covers(q.sprites.tiles[i].x, column); }
  }

  /** The colour of a sprite at a column, 0 where it does not reach: its planes from the most significant bit at column
      x + 1 to the least significant one at column x + 8, or the other way round. */
  function Shade(info: SpriteInfo, column: int): int {
    var across := column - info.x - 1;
    if across < 0 || across > 7 then 0
    else
      var k := if info.mirror then across else 7 - across;
      Digit(info.low, k) + 2 * Digit(info.high, k)
  }

  lemma ShadeIsColor(info: SpriteInfo, column: int)
    ensures Opaque(info, column) <==> Shade(info, column) != 0
    ensures Covers(info.x, column) ==> SpriteColor(info, column - info.x - 1) == Shade(info, column)
  {
    if Covers(info.x, column) {
      var across := column - info.x - 1;
      var k := if info.mirror then across else 7 - across;
      DigitIsBit(info.low, k);
      DigitIsBit(info.high, k);
    }
  }

  lemma DigitIsBit(byte: u8, k: u3)
    ensures Digit(byte, k) == if Bit(byte, k) then 1 else 0
  {}

  /** The sprites of a line seen from OAM alone: the first of the first eight on it that is opaque at the
      column, as a position among the sprites shown. */
  ghost predicate Front(oam: Oam, line: int, st: Settings, bus: Bus, column: int, k: nat) {
    var shown := Shown(oam, line, st.large);
    && k <= |shown| && (k < |shown| ==> Shade(OamTile(oam, shown[k], k, line, st, bus), column) != 0)
    && forall j :: 0 <= j < k ==> Shade(OamTile(oam, shown[j], j, line, st, bus), column) == 0
  }

  /** What a ready pipeline shows at a column, told by OAM: the front sprite of the first eight sprites on
      the line, unless it is behind an opaque background pixel; sprite 0 is hit when it is the front sprite
      over an opaque background. */
  ghost predicate Shows(color: u8, hits: bool, oam: Oam, line: int, st: Settings, bus: Bus, column: nat, k: nat,
                        b: Backdrop, hit: bool)
    requires Front(oam, line, st, bus, column, k)
  {
    var shown := Shown(oam, line, st.large);
    if k == |shown| || column <= b.minSprite then color == b.palette + b.color && hits == hit
    else
      var info := OamTile(oam, shown[k], k, line, st, bus);
      && color == (if b.color == 0 || !info.behind
                   then info.palette + Shade(info, column) else b.palette + b.color)
      && hits == (hit || (shown[k] == 0 && b.color != 0 && column != 256 && b.enabled && column > b.minStandard))
  }

  lemma ReadyShows(q: Ppu, oam: Oam, line: int, st: Settings, bus: Bus, column: nat, k: nat, b: Backdrop, hit: bool)
    requires Ready(q, oam, line, st, bus) && 1 <= column <= 256 && Front(oam, line, st, bus, column, k)
    ensures var (color, hits) := Pixel(q.sprites.tiles, q.eval, q.sprites.has[column], column, b, hit);
            Shows(color, hits, oam, line, st, bus, column, k, b, hit)
  {
    hide Ready, Front, TileAddress, Shown, Found, Visible, SpriteColor, Covers;
    CheckChangesNothing(q, oam, line, st, bus, column, b, hit);
    FrontIsFirst(q, oam, line, st, bus, column, k);
    ZeroIsFirst(oam, line, st.large);
    if k < |Shown(oam, line, st.large)| { ShadeIsColor(q.sprites.tiles[k], column); }
  }

  /** From OAM to the screen: the line after shows at every column the front sprite of the first eight
      sprites on the evaluated line. Settings may change between the two lines. */
  lemma NextLineShowsFrontSprite(p: Ppu, st: Settings, bus: Bus, st2: Settings, bus2: Bus, column: nat, k: nat,
                                 b: Backdrop, hit: bool)
    requires LineStart(p, st) && p.eval.addr == 0 && p.pos.line < 239 && st2.rendering
    requires 1 <= column <= 256 && Front(p.oam, p.pos.line, st, bus, column, k)
    ensures var r := Execs(Execs(p, st, bus, 340), st2, bus2, column);
            var (color, hits) := Pixel(r.sprites.tiles, r.eval, r.sprites.has[column], column, b, hit);
            && r.pos == Position(column - 1, p.pos.line + 1, p.pos.frame)
            && Shows(color, hits, p.oam, p.pos.line, st, bus, column, k, b, hit)
  {
    hide Execs, Ready, Front, Shows, FirstOpaque, Shown, Found;
    var q := Execs(p, st, bus, 340);
    LineReadiesSprites(p, st, bus);
    DrawingKeeps(q, st2, bus2, column);
    ReadyShows(q, p.oam, p.pos.line, st, bus, column, k, b, hit);
  }

  lemma FrontIsFirst(q: Ppu, oam: Oam, line: int, st: Settings, bus: Bus, column: nat, k: nat)
    requires Ready(q, oam, line, st, bus) && Front(oam, line, st, bus, column, k)
    ensures var shown := Shown(oam, line, st.large);
            && k <= |shown| == q.eval.count && FirstOpaque(q.sprites.tiles, 0, |shown|, column) == k
            && q.eval.zeroVisible == Visible(oam, 0, line, st.large)
            && (k < |shown| ==> q.sprites.tiles[k] == OamTile(oam, shown[k], k, line, st, bus)
                                && Opaque(q.sprites.tiles[k], column))
  {
    hide Opaque, OamTile, Shown, Shade;
    var shown := Shown(oam, line, st.large);
    forall j | 0 <= j < |shown|
      ensures Opaque(q.sprites.tiles[j], column) <==> Shade(OamTile(oam, shown[j], j, line, st, bus), column) != 0
    {
      ShadeIsColor(q.sprites.tiles[j], column);
    }
  }

  /** Sprite 0 is on the line exactly when it is the first one shown. */
  lemma ZeroIsFirst(oam: Oam, line: int, large: bool)
    ensures var shown := Shown(oam, line, large);
            forall k :: 0 <= k < |shown| ==> (shown[k] == 0 <==> k == 0 && Visible(oam, 0, line, large))
  {
    var all := Found(oam, 64, line, large);
    assert forall k :: 0 <= k < |all| ==> all[k] in all;
    assert forall k :: 0 < k < |all| ==> all[0] < all[k];
    if Visible(oam, 0, line, large) { assert 0 in all && all[0] == 0; }
  }
}
