/** The PPU as the source writes it: fields and arrays updated dot by dot (src/systems/nes/nes_ppu.cpp). */
module PpuDevice {
  import opened Types
  import opened PpuModel
  import opened ClockModel

  class NesPpu {
    const spriteRam: array<u8>
    const secondarySpriteRam: array<u8>
    const hasSprite: array<bool>
    const spriteTiles: array<SpriteInfo>

    var cycle: Dot
    var scanline: int
    var frameCount: u32
    var masterClock: nat

    var spriteRamAddr: u8
    var oamCopyBuffer: u8
    var secondaryOamAddr: SecAddr
    var spriteInRange: bool
    var sprite0Added: bool
    var sprite0Visible: bool
    var spriteAddrH: u6
    var spriteAddrL: int
    var overflowBugCounter: u2
    var oamCopyDone: bool
    var spriteCount: SpriteCount
    var spriteOverflow: bool
    var spriteZeroHit: bool
    var spriteIndex: nat

    var renderingEnabled: bool
    var largeSprites: bool
    var spritePatternAddr: u16
    var noOddFrameSkip: bool

    ghost const Repr: set<object>

    ghost predicate Valid()
      reads this
    {
      && Repr == {this, spriteRam, secondarySpriteRam, hasSprite, spriteTiles}
      && spriteRam.Length == 256 && secondarySpriteRam.Length == 32 && spriteRam != secondarySpriteRam
      && hasSprite.Length == 257 && spriteTiles.Length == 64
      && -1 <= scanline <= 260 && 0 <= spriteAddrL < 4
    }

    ghost function EvalState(): Eval
      requires Valid()
      reads this, secondarySpriteRam
    {
      Eval(spriteRamAddr, oamCopyBuffer, secondarySpriteRam[..], secondaryOamAddr, spriteInRange, sprite0Added,
           sprite0Visible, spriteAddrH, spriteAddrL, overflowBugCounter, oamCopyDone, spriteCount, spriteOverflow)
    }

    ghost function LineState(): SpriteLine
      requires Valid()
      reads this, hasSprite, spriteTiles
    {
      SpriteLine(spriteIndex, hasSprite[..], spriteTiles[..])
    }

    ghost function State(): Ppu
      requires Valid()
      reads this, spriteRam, secondarySpriteRam, hasSprite, spriteTiles
    {
      Ppu(Position(cycle, scanline, frameCount), spriteRam[..], EvalState(), LineState())
    }

    ghost function SettingsState(): Settings
      reads this
    {
      Settings(renderingEnabled, largeSprites, spritePatternAddr, noOddFrameSkip)
    }

    constructor ()
      ensures Valid() && fresh(Repr) && State() == PowerOn() && masterClock == 0
      ensures SettingsState() == Settings(false, false, 0, false) && !spriteZeroHit
    {
      var oam, secondary := new u8[256](i => 0), new u8[32](i => 0);
      var columns, tiles := new bool[257](i => false), new SpriteInfo[64](i => BLANK_TILE);
      spriteRam, secondarySpriteRam, hasSprite, spriteTiles := oam, secondary, columns, tiles;
      Repr := {this, oam, secondary, columns, tiles};
      cycle, scanline, frameCount, masterClock := 340, -1, 1, 0;
      spriteRamAddr, oamCopyBuffer, secondaryOamAddr, spriteIndex := 0, 0, 0, 0;
      spriteInRange, sprite0Added, sprite0Visible, oamCopyDone := false, false, false, false;
      spriteAddrH, spriteAddrL, overflowBugCounter, spriteCount := 0, 0, 0, 0;
      spriteOverflow, spriteZeroHit := false, false;
      renderingEnabled, largeSprites, spritePatternAddr, noOddFrameSkip := false, false, 0, false;
      new;
      assert spriteRam[..] == PowerOn().oam && secondarySpriteRam[..] == PowerOn().eval.secondary;
      assert LineState() == PowerOn().sprites;
    }

    /** A soft reset keeps everything but the clock. */
    method SoftReset()
      requires Valid()
      modifies this`masterClock
      ensures Valid() && State() == old(State()) && masterClock == 0
    {
      masterClock := 0;
    }

    /** What register writes and update_state amount to here. */
    method SetSettings(st: Settings)
      requires Valid()
      modifies this`renderingEnabled, this`largeSprites, this`spritePatternAddr, this`noOddFrameSkip
      ensures Valid() && State() == old(State()) && SettingsState() == st
    {
      renderingEnabled, largeSprites, spritePatternAddr, noOddFrameSkip := st.rendering, st.large, st.base, st.noSkip;
    }

    // ---- sprite evaluation ----

    method ProcessSpriteEvaluationStart()
      requires Valid()
      modifies this`sprite0Added, this`spriteInRange, this`secondaryOamAddr, this`overflowBugCounter,
               this`oamCopyDone, this`spriteAddrH, this`spriteAddrL
      ensures Valid() && EvalState() == StartEval(old(EvalState()))
    {
      sprite0Added := false;
      spriteInRange := false;
      secondaryOamAddr := 0;
      overflowBugCounter := 0;
      oamCopyDone := false;
      spriteAddrH := spriteRamAddr / 4;
      spriteAddrL := spriteRamAddr % 4;
    }

    method ProcessSpriteEvaluationEnd()
      requires Valid()
      modifies this`sprite0Visible, this`spriteCount
      ensures Valid() && EvalState() == EndEval(old(EvalState()))
    {
      sprite0Visible := sprite0Added;
      spriteCount := (secondaryOamAddr + 3) / 4;
    }

    method NextOamSprite()
      requires Valid()
      modifies this`spriteAddrH, this`spriteAddrL, this`oamCopyDone
      ensures Valid() && EvalState() == SkipStep(old(EvalState()))
    {
      spriteAddrH := (spriteAddrH + 1) % 64;
      spriteAddrL := 0;
      if spriteAddrH == 0 { oamCopyDone := true; }
    }

    method EndOamEntry()
      requires Valid()
      modifies this`spriteAddrL, this`spriteInRange
      ensures Valid() && EvalState() == EndEntry(old(EvalState()), scanline, largeSprites)
    {
      if secondaryOamAddr % 4 == 0 {
        spriteInRange := false;
        if spriteAddrL != 0 {
          var inRange := scanline >= oamCopyBuffer && scanline - oamCopyBuffer < if largeSprites then 16 else 8;
          if !inRange { spriteAddrL := 0; }
        }
      }
    }

    method KeepOamByte()
      requires Valid() && secondaryOamAddr < 32
      modifies this`spriteAddrH, this`spriteAddrL, this`oamCopyDone, this`sprite0Added, this`secondaryOamAddr,
               this`spriteInRange
      ensures Valid() && EvalState() == KeepStep(old(EvalState()), cycle == 66, scanline, largeSprites)
    {
      hide SkipStep, EndEntry;
      if cycle == 66 { sprite0Added := true; }
      secondaryOamAddr := secondaryOamAddr + 1;
      if spriteAddrL == 3 { NextOamSprite(); } else { spriteAddrL := spriteAddrL + 1; }
      EndOamEntry();
    }

    /** The branch with room in secondary OAM. */
    method CopyOamByte()
      requires Valid() && secondaryOamAddr < 32
      modifies this`spriteAddrH, this`spriteAddrL, this`oamCopyDone, this`sprite0Added, this`secondaryOamAddr,
               this`spriteInRange, secondarySpriteRam
      ensures Valid()
      ensures EvalState() == CopyStep(old(EvalState()), cycle == 66, scanline, largeSprites)
    {
      hide KeepStep, SkipStep;
      secondarySpriteRam[secondaryOamAddr] := oamCopyBuffer;
      if spriteInRange { KeepOamByte(); } else { NextOamSprite(); }
    }

    method TickOverflowBug()
      requires Valid()
      modifies this`overflowBugCounter, this`oamCopyDone, this`spriteAddrL
      ensures Valid() && EvalState() == BugStep(old(EvalState()))
    {
      if overflowBugCounter == 0 {
        overflowBugCounter := 3;
      } else {
        overflowBugCounter := overflowBugCounter - 1;
        if overflowBugCounter == 0 {
          oamCopyDone := true;
          spriteAddrL := 0;
        }
      }
    }

    /** The branch with secondary OAM full; its own test of the done flag cannot succeed. */
    method ScanOverflow()
      requires Valid() && secondaryOamAddr >= 32 && !oamCopyDone
      modifies this`oamCopyBuffer, this`spriteAddrH, this`spriteAddrL, this`oamCopyDone, this`spriteOverflow,
               this`overflowBugCounter
      ensures Valid()
      ensures EvalState() == OverflowStep(old(EvalState()))
    {
      hide BugStep;
      oamCopyBuffer := secondarySpriteRam[secondaryOamAddr % 32];
      if spriteInRange {
        spriteOverflow := true;
        spriteAddrL := spriteAddrL + 1;
        if spriteAddrL == 4 {
          spriteAddrH := (spriteAddrH + 1) % 64;
          spriteAddrL := 0;
        }
        TickOverflowBug();
      } else {
        spriteAddrH := (spriteAddrH + 1) % 64;
        spriteAddrL := (spriteAddrL + 1) % 4;
        if spriteAddrH == 0 { oamCopyDone := true; }
      }
    }

    method EvaluateByte()
      requires Valid()
      modifies this`oamCopyBuffer, this`spriteAddrH, this`spriteAddrL, this`oamCopyDone, this`sprite0Added,
               this`secondaryOamAddr, this`spriteInRange, this`spriteOverflow, this`overflowBugCounter,
               secondarySpriteRam
      ensures Valid()
      ensures EvalState() == ByteStep(old(EvalState()), cycle == 66, scanline, largeSprites)
    {
      hide CopyStep, OverflowStep;
      if oamCopyDone {
        spriteAddrH := (spriteAddrH + 1) % 64;
        if secondaryOamAddr >= 32 { oamCopyBuffer := secondarySpriteRam[secondaryOamAddr % 32]; }
      } else {
        if !spriteInRange && scanline >= oamCopyBuffer
           && scanline - oamCopyBuffer < if largeSprites then 16 else 8 {
          spriteInRange := !oamCopyDone;
        }
        if secondaryOamAddr < 32 { CopyOamByte(); } else { ScanOverflow(); }
      }
    }

    method WriteOamByte()
      requires Valid()
      modifies this`oamCopyBuffer, this`spriteAddrH, this`spriteAddrL, this`oamCopyDone, this`sprite0Added,
               this`secondaryOamAddr, this`spriteInRange, this`spriteOverflow, this`overflowBugCounter,
               this`spriteRamAddr, secondarySpriteRam
      ensures Valid()
      ensures EvalState() == WriteStep(old(EvalState()), cycle == 66, scanline, largeSprites)
    {
      hide ByteStep;
      EvaluateByte();
      spriteRamAddr := spriteAddrL % 4 + spriteAddrH * 4;
    }

    method ProcessSpriteEvaluation()
      requires Valid() && 1 <= cycle <= 256
      modifies this`oamCopyBuffer, this`spriteAddrH, this`spriteAddrL, this`oamCopyDone, this`sprite0Added,
               this`secondaryOamAddr, this`spriteInRange, this`spriteOverflow, this`overflowBugCounter,
               this`spriteRamAddr, this`sprite0Visible, this`spriteCount, secondarySpriteRam
      ensures Valid()
      ensures EvalState() == if renderingEnabled
                             then EvalDot(old(EvalState()), spriteRam[..], cycle, scanline, largeSprites)
                             else old(EvalState())
    {
      hide WriteStep;
      if renderingEnabled {
        if cycle < 65 {
          oamCopyBuffer := 0xFF;
          secondarySpriteRam[(cycle - 1) / 2] := 0xFF;
        } else if cycle % 2 == 1 {
          if cycle == 65 { ProcessSpriteEvaluationStart(); }
          oamCopyBuffer := spriteRam[spriteRamAddr];
        } else {
          if cycle == 256 { ProcessSpriteEvaluationEnd(); }
          WriteOamByte();
        }
      }
    }

    // ---- sprite loading ----

    method MarkColumns(spriteX: u8)
      requires Valid()
      modifies hasSprite
      ensures hasSprite[..] == Mark(old(hasSprite[..]), spriteX)
    {
      var i := 0;
      while i < 8 && spriteX + i + 1 < 257
        invariant 0 <= i <= 8 && spriteX + i < 257
        invariant forall c :: 0 <= c < 257 ==> hasSprite[c] == (old(hasSprite[c]) || 0 <= c - spriteX - 1 < i)
      {
        hasSprite[spriteX + i + 1] := true;
        i := i + 1;
      }
      assert forall c :: 0 <= c < 257 ==> hasSprite[..][c] == Mark(old(hasSprite[..]), spriteX)[c];
    }

    method ClearColumns()
      requires Valid()
      modifies hasSprite
      ensures hasSprite[..] == seq(257, i => false)
    {
      var c := 0;
      while c < 257
        invariant 0 <= c <= 257
        invariant forall d :: 0 <= d < c ==> !hasSprite[d]
      {
        hasSprite[c] := false;
        c := c + 1;
      }
    }

    method StoreTile(spriteY: u8, tileIndex: u8, attributes: u8, spriteX: u8, bus: Bus)
      requires Valid() && spriteIndex < 8
      modifies spriteTiles
      ensures spriteTiles[..] == old(spriteTiles[..])[
                spriteIndex := Info(spriteY, tileIndex, attributes, spriteX, cycle, scanline, SettingsState(), bus)]
    {
      hide Bit, Or8;
      var lineOffset := if Bit(attributes, 7) then (if largeSprites then 15 else 7) - (scanline - spriteY)
                        else scanline - spriteY;
      lineOffset := lineOffset % 0x100;
      var address: int;
      if largeSprites {
        var bank := if tileIndex % 2 == 1 then 0x1000 else 0;
        address := bank + (tileIndex - tileIndex % 2) * 16 + if lineOffset >= 8 then lineOffset + 8 else lineOffset;
      } else {
        address := spritePatternAddr + lineOffset % 16 + 16 * Or8(tileIndex, lineOffset / 16);
      }
      spriteTiles[spriteIndex] :=
        SpriteInfo(spriteX, bus(cycle, address), bus(cycle, address + 8), attributes % 4 * 4 + 16,
                   Bit(attributes, 6), Bit(attributes, 5));
    }

    method LoadSpriteTileInfo(bus: Bus)
      requires Valid() && spriteIndex < 8
      modifies this`spriteIndex, hasSprite, spriteTiles
      ensures Valid()
      ensures LineState() == LoadSprite(old(LineState()), secondarySpriteRam[..], spriteCount, cycle, scanline,
                                         SettingsState(), bus)
    {
      hide Mark, Info;
      var k := spriteIndex * 4;
      var spriteY, tileIndex, attributes, spriteX :=
        secondarySpriteRam[k], secondarySpriteRam[k + 1], secondarySpriteRam[k + 2], secondarySpriteRam[k + 3];
      if spriteIndex < spriteCount && spriteY < 240 {
        StoreTile(spriteY, tileIndex, attributes, spriteX, bus);
        if scanline >= 0 { MarkColumns(spriteX); }
      }
      spriteIndex := spriteIndex + 1;
    }

    /** Dots 257-320 of process_scanline_impl. */
    method LoadSprites(bus: Bus)
      requires Valid() && 257 <= cycle <= 320 && IndexOk(LineState(), cycle)
      modifies this`spriteIndex, this`spriteRamAddr, hasSprite, spriteTiles
      ensures Valid()
      ensures LineState() == LoadDot(old(LineState()), old(EvalState()), cycle, scanline, SettingsState(), bus)
      ensures EvalState() == if renderingEnabled then old(EvalState()).(addr := 0) else old(EvalState())
    {
      hide LoadSprite;
      if cycle == 257 {
        spriteIndex := 0;
        ClearColumns();
      }
      if renderingEnabled {
        spriteRamAddr := 0;
        if (cycle - 257) % 8 == 4 { LoadSpriteTileInfo(bus); }
      }
    }

    // ---- pixels ----

    /** The first opaque sprite over the background: a hit if it is sprite zero. */
    method CheckSpriteZero(i: nat, b: Backdrop)
      requires Valid()
      modifies this`spriteZeroHit
      ensures Valid() && State() == old(State())
      ensures spriteZeroHit == (old(spriteZeroHit) || (i == 0 && b.color != 0 && sprite0Visible && cycle != 256
                                                       && b.enabled && cycle > b.minStandard))
    {
      if i == 0 && b.color != 0 && sprite0Visible && cycle != 256 && b.enabled && !spriteZeroHit
         && cycle > b.minStandard {
        spriteZeroHit := true;
      }
    }

    method GetPixelColor(b: Backdrop) returns (color: u8)
      requires Valid() && 1 <= cycle <= 256
      modifies this`spriteZeroHit
      ensures Valid() && State() == old(State())
      ensures (color, spriteZeroHit)
           == Pixel(spriteTiles[..], EvalState(), hasSprite[cycle], cycle, b, old(spriteZeroHit))
    {
      hide FirstOpaque, SpriteColor;
      if hasSprite[cycle] && cycle > b.minSprite {
        ghost var tiles: Tiles := spriteTiles[..];
        var i := 0;
        while i < spriteCount
          invariant 0 <= i <= spriteCount && spriteZeroHit == old(spriteZeroHit)
          invariant FirstOpaque(tiles, 0, spriteCount, cycle) == FirstOpaque(tiles, i, spriteCount, cycle)
        {
          var tile := spriteTiles[i];
          FirstOpaqueFrom(tiles, i, spriteCount, cycle);
          var shift := cycle - tile.x - 1;
          if 0 <= shift < 8 {
            var spriteColor := SpriteColor(tile, shift);
            if spriteColor != 0 {
              assert FirstOpaque(tiles, 0, spriteCount, cycle) == i;
              CheckSpriteZero(i, b);
              if b.color == 0 || !tile.behind {
                color := (tile.palette + spriteColor) % 256;
                return;
              }
              break;
            }
          }
          i := i + 1;
        }
      }
      color := b.palette + b.color;
    }

    // ---- the dot clock ----

    method ProcessScanlineImpl(bus: Bus)
      requires Valid() && 1 <= cycle && IndexOk(LineState(), cycle)
      modifies this`cycle, this`oamCopyBuffer, this`spriteAddrH, this`spriteAddrL, this`oamCopyDone,
               this`sprite0Added, this`secondaryOamAddr, this`spriteInRange, this`spriteOverflow,
               this`overflowBugCounter, this`spriteRamAddr, this`sprite0Visible, this`spriteCount, this`spriteIndex,
               spriteRam, secondarySpriteRam, hasSprite, spriteTiles
      ensures Valid() && State() == ScanlineDot(old(State()), SettingsState(), bus)
    {
      hide EvalDot, LoadDot;
      if cycle <= 256 {
        if scanline >= 0 {
          ProcessSpriteEvaluation();
        } else if cycle < 9 {
          if spriteRamAddr >= 8 && renderingEnabled {
            spriteRam[cycle - 1] := spriteRam[spriteRamAddr / 8 * 8 + cycle - 1];
          }
        }
      } else if cycle <= 320 {
        LoadSprites(bus);
      } else if cycle == 321 {
        if renderingEnabled { oamCopyBuffer := secondarySpriteRam[0]; }
      } else if cycle == 339 {
        if renderingEnabled {
          if scanline == -1 && frameCount % 2 == 1 && !noOddFrameSkip { cycle := 340; }
        }
      }
    }

    /** The pre-render line begins. */
    method ClearStatus()
      requires Valid()
      modifies this`spriteCount, this`spriteOverflow, this`spriteZeroHit
      ensures Valid() && EvalState() == old(EvalState()).(count := 0, overflow := false) && !spriteZeroHit
    {
      spriteCount := 0;
      spriteOverflow := false;
      spriteZeroHit := false;
    }

    method ProcessScanlineFirstCycle()
      requires Valid()
      modifies this`cycle, this`scanline, this`frameCount, this`spriteCount, this`spriteOverflow, this`spriteZeroHit
      ensures Valid() && State() == FirstDot(old(State()))
    {
      cycle := 0;
      scanline := if scanline == 260 then -1 else scanline + 1;
      if scanline == -1 {
        ClearStatus();
      } else if scanline == 240 {
        frameCount := (frameCount + 1) % 0x1_0000_0000;
      }
    }

    method Step(bus: Bus)
      requires Valid() && PpuOk(State())
      modifies Repr
      ensures Valid() && State() == Exec(old(State()), SettingsState(), bus)
      ensures SettingsState() == old(SettingsState()) && masterClock == old(masterClock)
    {
      hide ScanlineDot, FirstDot;
      if cycle < 340 {
        cycle := cycle + 1;
        if scanline < 240 { ProcessScanlineImpl(bus); }
      } else {
        ProcessScanlineFirstCycle();
      }
    }

    method StepClock(bus: Bus)
      requires Valid() && PpuOk(State())
      modifies Repr
      ensures Valid() && State() == Exec(old(State()), SettingsState(), bus)
      ensures SettingsState() == old(SettingsState()) && masterClock == old(masterClock) + PPU_DIVIDER
    {
      hide Exec, PpuOk;
      Step(bus);
      masterClock := masterClock + PPU_DIVIDER;
    }

    /** A write to $2004. */
    method WriteOamData(value: u8)
      requires Valid()
      modifies this`spriteRamAddr, spriteRam
      ensures Valid() && State() == WriteOam(old(State()), SettingsState(), value)
      ensures old(PpuOk(State())) ==> PpuOk(State())
    {
      if scanline >= 240 || !renderingEnabled {
        spriteRam[spriteRamAddr] := if spriteRamAddr % 4 == 2 then value - value / 4 % 8 * 4 else value;
        spriteRamAddr := (spriteRamAddr + 1) % 0x100;
      } else {
        spriteRamAddr := (spriteRamAddr + 4) % 0x100;
      }
    }

    /** run(): one dot, then as many as fit before `runTo`. */
    method Run(runTo: int, bus: Bus)
      requires Valid() && PpuOk(State())
      modifies Repr
      ensures Valid() && PpuOk(State()) && SettingsState() == old(SettingsState())
      ensures var n := DotsTo(old(masterClock), runTo);
              masterClock == old(masterClock) + n * PPU_DIVIDER
              && State() == Execs(old(State()), old(SettingsState()), bus, n)
    {
      ghost var n := 1;
      StepClock(bus);
      while masterClock + PPU_DIVIDER <= runTo
        invariant Valid() && PpuOk(State()) && n >= 1 && SettingsState() == old(SettingsState())
        invariant masterClock == old(masterClock) + n * PPU_DIVIDER
        invariant State() == Execs(old(State()), old(SettingsState()), bus, n)
        invariant DotsTo(old(masterClock), runTo)
               == n - 1 + DotsTo(old(masterClock) + (n - 1) * PPU_DIVIDER, runTo)
      {
        StepClock(bus);
        n := n + 1;
      }
    }
  }
}
