# Verified model of the Ear6 emulator core

Ear6 is a cycle-stepped NES emulator written in C++. This project models its stateful core in Dafny 4.11 and
proves what that core promises. `dafny verify dfyconfig.toml` checks everything.

Each part has the same three layers: a module of plain functions that says what one call does to the state, a
module of classes that do it field by field as the C++ does, with contracts that tie every method to those
functions, and lemmas about whole runs of the functions.

- **Audio** (`ApuChannels`, `ApuModel`, `LazyApu`, `ApuBatches`, `ApuTicks`, `ApuUnits`, `ApuShapes`, `ApuWaves`,
  `ApuSamples`, `ApuBus`, `ApuLogs`, `ApuResets`; classes in `ApuDevices`, `NesApuDevice`, `SoundMixer`,
  `MixerLevels`). The APU catches up only when it must. The main
  theorem, `LazyEqualsEager`, says that between resets nobody can tell it from an APU that runs on every CPU
  cycle. Around it: timers may be drained in any batches, the sequencer may not, and the mixer holds every
  channel's level (`MixerLevels.PlayRun`). What is heard is stated in numbers: `ApuTicks.TicksDue` counts the ticks,
  `ApuUnits.NoteLasts` says how long a note lasts, and the waves, envelopes, sweeps and samples have closed forms.
- **Picture** (`PpuModel`, `SpriteEvaluation`, `SpriteOverflow`, `SpriteLines`, `PreRenderLine`, `FrameClock`; classes
  in `PpuDevice`, `ConsoleDevice`). From OAM to the screen: the first eight sprites on a line are found, loaded row by row and
  shown in priority order on the next one, the column index never changes a pixel, and the overflow flag imitates
  the diagonal scan exactly. Frames have an exact length
  and running one terminates.
- **CPU cycles and DMA** (`ClockModel`, `DmaModel`, `DmaTransfer`, `DmaStops`, `OamDma`; class in `CpuDevice`). The PPU stays
  in step, and a sprite DMA fills OAM in an exact number of cycles under any DMC interference; when a DMC fetch still happens after a stop
  is decided exactly.
- **Serial EEPROM** (`EepromModel`, `EepromTransfers`; class in `EepromDevice`). Bytes written over two wires are
  the bytes read back, whatever the chip was doing before.
- **Save states** (`StateCodec`, `StateRoundTrip`, `StateLayout`, `Checksums`, `CrcPolynomial`, `IdentityLaw`, `StateContainer`, `MapperPages`, `MapperState`;
  classes in `StateStreamDevice`, `MapperStateDevice`). The codec round-trips for every schema, the container
  detects truncation, extension and any changed byte by a CRC that is proved to be a polynomial remainder, and a mapper saved on one machine and loaded on another has
  its RAM and its view of memory back, wherever the arrays are.
- **Kernels** (`VrcIrqUnit`, `Mmc3Mapper`, `Mmc3Writes`, `Mmc3Device`, `AudioRing`). An IRQ timer without drift, a page
  table that follows what was written, and a ring that keeps the newest samples and
  hands them out in order.

Bounded integers of the program are subset types, and wrap-around is written out where it can happen. The PPU bus,
the CPU bus, the volume curve and the body encoding of a save state are functions the theorems quantify over.

## Findings

Claims about the code that are not true in general. Each has an input for which it fails and the exact condition
under which it holds, over all inputs.

| claim | fails for | holds exactly when |
|---|---|---|
| The mixer holds every channel's level at all times. | `ApuLogs.ResetLosesLevel`: a reset, or another load over the same mixer, sets `last_output_` to 0 without a delta (src/systems/nes/audio/apu_timer.h:18-23), and the mixer stays ahead by the old level for good. | The channel's level at the reset is 0 (`ApuLogs.ResetExactlyWhen`). What survives any number of resets is the account of `ApuLogs.DeltasAccountForLevels`: deltas sent are the level plus the levels lost. |
| The lazy APU cannot be told from one that runs every cycle. | `ApuResets.LateResetDropsDelta`: a reset does not catch up first (src/systems/nes/audio/nes_apu.cpp:227-246); four register writes and nineteen clocks after power-on it drops a change on square 1. | No channel's timer expires to another level than its last within the cycles not run yet at the reset (`ApuResets.NothingOwed`, `ApuResets.ResetRefinesExactlyWhen`); between resets always (`LazyApu.LazyEqualsEager`). |
| The sequencer may be caught up in batches. | `ApuBatches.SecondStepLost`: 7457 cycles from cycle 7456 lose the half frame, because the blocker counts calls (src/systems/nes/audio/apu_frame_counter.cpp:55-114). With a $4017 write pending, `ApuBatches.LateIsDifferent`: any two or more cycles of which the first takes no step. | The batch is shorter than `LossAt` (`ApuBatches.BatchExactlyWhen`); with a write pending, `ApuBatches.PendingExactlyWhen`, by the delay, the step, the blocker and the new mode. Every run is in one of the two cases (`ApuBatches.EveryRunCovered`). `need_to_run` keeps every batch below that (`ApuBatches.GuardedNeverLoses`). |
| The MMC3's page table is a function of its registers. | `Mmc3Mapper.LoadIgnoresGuard`: after a load, `setup_default_work_ram` has mapped $6000-$7FFF writable over the disabled work RAM (src/systems/nes/nes_console.cpp:302-307, src/systems/nes/mappers/base_mapper.cpp:146-152). | A write has gone to $8000-$9FFF or to an odd address in $A000-$BFFF (`Mmc3Mapper.TableExactlyWhen`, `Mmc3Mapper.WorkRamExactlyWhen`); from $8000 on always. |
| A stop cancels the sample fetch. | `DmaStops.LateStopFetches`: a stop in the dummy cycle before a get cycle; the fetch is decided before the abort flag is looked at (src/systems/nes/nes_cpu.cpp:586-606). | The next cycle is not a get cycle with the engine ready to fetch; it fetches nothing after that cycle in any case (`DmaStops.StopEndsFetches`). |
| The content identity is the FNV-1a 64 hash of the content (docs/state-format.md:57). | Every content (`IdentityLaw.NeverFnv1a`): the start value lacks its last digit (src/core/ear6.cpp:93). | Never. What it is: `IdentityLaw.IdentityStep`; it still tells contents apart that differ in one byte (`Checksums.EditChangesIdentity`). |
| The slot at $E000 shows the last bank. | `Mmc3Mapper.LastBankMissed`: twelve pages (src/systems/nes/mappers/base_mapper.cpp:117-126). | The page count divides 65536 (`Mmc3Mapper.LastBankFixed`). |

The table below lists the results and the methods with loops. The other methods of the classes do one call of the
source each, and their contracts equate the new state with the function of the same name.

## Model

| member | source | states |
|---|---|---|
| LazyApu.LazyEqualsEager | src/systems/nes/audio/nes_apu.cpp:124-186 | from any reset, for every interleaving of clocks, register writes, reads, DMC refills, ends of frame and enable changes: the APU that runs only when `need_to_run` says so gives the same reads and the same interrupts, DMA requests, sample addresses and audio frames in the same operation as one that runs every cycle, and once synced every field but the run-request flags is the same |
| LazyApu.RunsRefine | src/systems/nes/audio/nes_apu.cpp:124-186 | the same from any pair of APUs that agree, for every sequence of operations and for the whole trace |
| LazyApu.StepRefines | src/systems/nes/audio/nes_apu.cpp:69-186 | each single operation keeps the lazy and the eager APU in agreement and reads the same value from both |
| LazyApu.ClockRefines | src/systems/nes/audio/nes_apu.cpp:143-162 | a CPU clock keeps the agreement although the lazy APU may skip its run |
| LazyApu.WriteRefines | src/systems/nes/audio/nes_apu.cpp:98-122 | a register write catches up first, and raises a run request whenever it leaves a deferred halt or reload |
| LazyApu.ReadRefines | src/systems/nes/audio/nes_apu.cpp:69-96 | a read catches up, returns the same value and leaves the same state |
| LazyApu.RefillRefines | src/systems/nes/audio/delta_modulation_channel.cpp:55-71 | a sample byte from the DMA keeps the agreement: it can only arrive while the lazy APU is not behind |
| LazyApu.EndFrameOpRefines | src/systems/nes/audio/nes_apu.cpp:164-186 | the end of an audio frame, called from outside or at the frame limit, keeps the agreement |
| LazyApu.ViewsAgree | src/systems/nes/audio/nes_apu.cpp:143-162 | between syncs the lazy APU has nothing to tell the CPU or the mixer that the eager one has told |
| LazyApu.QuietRun | src/systems/nes/audio/nes_apu.cpp:124-141 | when nothing is due, however many cycles are caught up, `run` is one batch without ticks |
| LazyApu.QuietRunSplits | src/systems/nes/audio/nes_apu.cpp:124-141 | running after every cycle or only at the end of a quiet stretch comes to the same |
| LazyApu.RunSettles | src/systems/nes/audio/nes_apu.cpp:124-141 | after a run that had something to do no length counter has a deferred halt or reload |
| LazyApu.RunFlagsOk | src/systems/nes/audio/nes_apu.cpp:143-151 | after a run a lowered run-request flag means that nothing is deferred |
| LazyApu.RunIgnoresFlags | src/systems/nes/audio/nes_apu.cpp:124-141 | the run-request flags never influence what a run computes |
| LazyApu.DrainSplits | src/systems/nes/audio/nes_apu.cpp:135-139 | draining all five channels to a and then to b is draining them to b |
| LazyApu.DrainKeepsLengths | src/systems/nes/audio/nes_apu.cpp:135-139 | draining the channels changes no length counter |
| ApuLogs.DeltasAccountForLevels | src/systems/nes/audio/apu_timer.h:18-50 | from the start of the console, in every run, lazy or eager, through any resets and further loads: every delta is inside the frame, and for every channel the deltas sent add up to its `last_output_` plus the levels it had at the resets; without a reset nothing is lost and every frame is in time order |
| ApuLogs.RunKeepsAccount | src/systems/nes/audio/apu_timer.h:18-50 | the same from any state that has such an account |
| ApuLogs.StepKeepsLogs | src/systems/nes/audio/apu_timer.h:25-50 | every single operation other than a reset keeps the account as it is |
| ApuLogs.ResetKeepsLogs | src/systems/nes/audio/apu_timer.h:18-23 | a reset adds every channel's level to what is lost |
| ApuLogs.ResetExactlyWhen | src/systems/nes/audio/apu_timer.h:18-23 | a channel's account is unchanged by a reset if and only if its last output was 0 |
| ApuLogs.ResetLosesLevel | src/systems/nes/nes_console.cpp:318-350 | 64 written to $4011, one audio frame and a reset: the channel is at 0 and the mixer stays at 64 |
| ApuLogs.FrameEndsLogs | src/systems/nes/audio/nes_apu.cpp:164-186 | whenever an operation ends an audio frame nothing is pending |
| ApuResets.ResetRefinesExactlyWhen | src/systems/nes/audio/nes_apu.cpp:227-246 | a reset leaves the lazy and the eager APU in agreement if and only if nothing is owed: no channel's timer expires, in the cycles not run yet, with another level than its last |
| ApuResets.OwedIsUnsent | src/systems/nes/audio/nes_apu.cpp:124-141 | that is so exactly when catching up would send the mixer nothing |
| ApuResets.LateResetDropsDelta | src/systems/nes/audio/nes_apu.cpp:227-246 | from a reset, four writes that start a tone on square 1 and nineteen clocks, of which the lazy APU runs three: both agree, the eager one has sent the change back to 0, and after a reset the lazy one never will |
| ApuResets.EventsRefine | src/systems/nes/audio/nes_apu.cpp:124-246 | lazy equals eager through resets too, in every read and everything the CPU and the mixer see after every event, as long as no reset finds anything owed |
| ApuBatches.BatchExactlyWhen | src/systems/nes/audio/apu_frame_counter.cpp:55-114 | with no $4017 write pending, the sequencer may be caught up in one batch, with the same ticks and state as cycle by cycle, if and only if the batch is shorter than `LossAt`: the distance to the first ticking step whose predecessor ticked too, because the blocker counts calls and not cycles |
| ApuBatches.LosesFrom | src/systems/nes/audio/apu_frame_counter.cpp:55-114 | that distance is where the call-by-call replay first loses a tick |
| ApuBatches.PendingExactlyWhen | src/systems/nes/audio/apu_frame_counter.cpp:96-113 | with a write pending: if and only if each cycle of the batch but the last falls on a step, or the write has been delivered that way and the restarted sequence loses nothing, which goes by the delay, the step, the blocker and the new mode; the delay counts calls too |
| ApuBatches.Delivery | src/systems/nes/audio/apu_frame_counter.cpp:96-113 | after a call that delivers the write on a step the restarted sequence loses a tick from its first step on if that call ticked, else from its second |
| ApuBatches.DeliveryLater | src/systems/nes/audio/apu_frame_counter.cpp:96-113 | whether it will tick does not change with the calls before it |
| ApuBatches.EveryRunCovered | src/systems/nes/audio/nes_apu.cpp:98-186 | in every run from a reset, lazy or eager, through any operations and further resets, the sequencer is in a state that one of these two conditions is about |
| ApuBatches.RunFrameOrderly | src/systems/nes/audio/apu_frame_counter.cpp:55-114 | one call leaves the position after the last step taken, a blocker of at most 1 and, with no write pending, no blocked step due at once |
| ApuBatches.LateIsDifferent | src/systems/nes/audio/apu_frame_counter.cpp:96-113 | otherwise two cycles are enough to tell them apart: the write arrives in another cycle |
| ApuBatches.SinglyOnTime | src/systems/nes/audio/apu_frame_counter.cpp:96-113 | cycle by cycle the delay is a number of cycles and the sequence restarts then |
| ApuBatches.GuardedNeverLoses | src/systems/nes/audio/apu_frame_counter.cpp:116-119 | as long as `need_to_run` says no, no batch gets that far |
| ApuBatches.SinglyTicksAll | src/systems/nes/audio/apu_frame_counter.cpp:55-114 | cycle by cycle every ticking step reached ticks |
| ApuBatches.BatchTicksFewer | src/systems/nes/audio/apu_frame_counter.cpp:55-114 | a batch that gets that far ticks strictly fewer times than there are ticking steps |
| ApuBatches.SecondStepLost | src/systems/nes/audio/apu_frame_counter.cpp:55-114 | one cycle before the first quarter frame, a batch of 7457 cycles, less than an audio frame, loses the half frame |
| ApuBatches.StepTaken | src/systems/nes/audio/apu_frame_counter.cpp:58-94 | one call that reaches a step: flags, tick unless blocked, next step |
| ApuTicks.TicksDue | src/systems/nes/audio/apu_frame_counter.cpp:55-114 | in every state of the sequencer that a run reaches, the half frames and all ticks of the next n cycles, counted in closed form: at 14913 and 29829 of every 29830 cycles in the four-step sequence and at 14913 and 37281 of every 37282 in the five-step one, up to the delivery of a pending $4017 write, one at the delivery if it ticks, and from then on as the new sequence has them |
| ApuTicks.DeliveryCycle | src/systems/nes/audio/apu_frame_counter.cpp:96-113 | the delivered write starts its sequence at 0 and ticks at once if bit 7 is set and neither this cycle nor the one before has ticked |
| ApuTicks.OneCycle | src/systems/nes/audio/apu_frame_counter.cpp:55-94 | one cycle: the tick that its place in the sequence has, and the next place |
| ApuTicks.FrameWritten | src/systems/nes/audio/apu_frame_counter.cpp:37-53 | a $4017 write is delivered three cycles later, or four after an odd cycle; bit 6 lowers flag and line at once |
| ApuTicks.IrqRaised | src/systems/nes/audio/apu_frame_counter.cpp:58-69 | n cycles on the interrupt line is up if it was, or if the four-step sequence has reached cycle 29828 uninhibited |
| ApuUnits.NoteLasts | src/systems/nes/audio/apu_length_counter.cpp:12-18 | a note written to $4003, $4007, $400B or $400F of an enabled channel, in any state of the lazy APU that a run reaches, and n clocks: its bit of $4015 reads as set if and only if fewer half frames have passed, after the first cycle, than the length table says at index value / 8, or for good when halted; unless that first cycle counts the old note down, which drops the new one |
| ApuUnits.EnableSwitches | src/systems/nes/audio/nes_apu.cpp:98-112 | bit k of a $4015 write clear: channel k reads as silent after any number of clocks, unless a load of a counter that stood at 0 still waits; set, with nothing waiting: it plays until as many half frames have passed as its counter holds, or for good when halted |
| ApuUnits.NoteLengths | src/systems/nes/audio/apu_length_counter.h:14-17 | the 32 lengths by their rule: odd entries one less than the index, but 254; even ones sixteenths of 10 or 12 half frames, doubled four times, dotted and as triplets |
| ApuUnits.LengthCounts | src/systems/nes/audio/apu_length_counter.h:37-41 | with nothing deferred the counter falls by one with each half frame of the next n cycles and stops at 0, and stays when halted |
| ApuUnits.LengthCycle | src/systems/nes/audio/apu_length_counter.h:27-41 | one cycle of the sequencer: count, then the deferred load unless the counter has moved since the write, then the deferred halt flag |
| ApuUnits.UnitsLater | src/systems/nes/audio/nes_apu.cpp:124-141 | length counters, envelopes, linear counter and sweeps of the lazy APU n clocks on are those of a cycle-by-cycle replay of the sequencer's ticks |
| ApuUnits.TicksAreLocal | src/systems/nes/audio/nes_apu.cpp:50-67 | a tick moves envelopes and the linear counter, and a half frame lengths and sweeps too, each by its own state only |
| ApuUnits.RegistersApart | src/systems/nes/audio/nes_apu.cpp:98-122 | each channel has four registers of its own, and no write to them touches another channel |
| ApuShapes.EnvelopeRestarts | src/systems/nes/audio/apu_envelope.h:43-59 | a restarted envelope, n cycles of the sequencer with x ticks on: untouched for x = 0, else at 15 less one step for every volume + 1 ticks after the first, at 0 or round again when looping |
| ApuShapes.DecaysOn | src/systems/nes/audio/apu_envelope.h:43-59 | an envelope on that curve stays on it, as far on as there are ticks |
| ApuShapes.LinearCounts | src/systems/nes/audio/triangle_channel.cpp:52-61 | the linear counter after n cycles: reloaded at the first tick after a $400B write, and at every one under the control flag, else counted down to 0 |
| ApuShapes.SweepRuns | src/systems/nes/audio/square_channel.cpp:42-54 | half frames count the sweep divider down; when it runs out the period becomes period plus or minus its shifted copy, in ones' complement on square 1, if shift, enable bit, period and target allow, and the count begins again |
| ApuShapes.SweepCycle | src/systems/nes/audio/square_channel.cpp:42-54 | one cycle of that, reload flag included |
| ApuShapes.EveryRunHonest | src/systems/nes/audio/square_channel.h:80-110 | after every run from a reset the kept sweep target, which also mutes, is what period, shift and negate flag give |
| ApuWaves.SquareWave | src/systems/nes/audio/square_channel.h:31-36 | the output at expiry n: high in one, two, four or six of eight steps as the duty says, 0 when muted by period or target or when the note is over, else the constant volume or the envelope |
| ApuWaves.SquareRegisters | src/systems/nes/audio/square_channel.cpp:14-40 | what the four registers set, bit by bit; the timer expires every 2 * period + 2 cycles |
| ApuWaves.WriteIsHeard | src/systems/nes/audio/square_channel.cpp:14-40 | any register write makes the channel's level at once what the new setting gives, and sends the mixer the difference |
| ApuWaves.TriangleWave | src/systems/nes/audio/triangle_channel.cpp:7-14 | the output at expiry n goes down from 15 to 0 and up again, and stands still unless both counters run |
| ApuWaves.TriangleRegisters | src/systems/nes/audio/triangle_channel.cpp:30-50 | what its registers set |
| ApuWaves.NoiseRecurrence | src/systems/nes/audio/noise_channel.cpp:9-12 | the bit that mutes at expiry n + 15 is the sum modulo 2 of those at n and n + 1, or n + 6 in the short mode |
| ApuWaves.NoiseWave | src/systems/nes/audio/noise_channel.cpp:7-20 | the output at expiry n: 0 when that bit is set or the note is over, else the volume |
| ApuWaves.NoiseRegisters | src/systems/nes/audio/noise_channel.cpp:34-52 | what its registers set |
| ApuSamples.BytePlays | src/systems/nes/audio/delta_modulation_channel.cpp:73-103 | a byte moves the level at its eight expiries by 2 up for a one and down for a zero, least significant first, unless that leaves 0 to 127; then the buffered byte follows, for which the next one is requested, or silence |
| ApuSamples.SilencePlays | src/systems/nes/audio/delta_modulation_channel.cpp:85-99 | in silence the level holds until the eight expiries are over |
| ApuSamples.SampleFetched | src/systems/nes/audio/delta_modulation_channel.cpp:55-71 | n bytes fetched come from consecutive addresses, $8000 after $FFFF; after the last the sample starts over when looping, else raises the line if enabled |
| ApuSamples.SwitchedOn | src/systems/nes/audio/delta_modulation_channel.cpp:158-177 | $4015 bit 4 set with no sample playing: the sample starts over, and its first byte is requested two clocks later, or three after an odd cycle |
| ApuSamples.SwitchedOff | src/systems/nes/audio/delta_modulation_channel.cpp:149-173 | clear: two clocks later, or three, the sample is over and the transfer stopped |
| ApuSamples.SampleRegisters | src/systems/nes/audio/delta_modulation_channel.cpp:121-147 | what its registers set |
| ApuBus.ResetState | src/systems/nes/audio/nes_apu.cpp:227-236 | every field after a hard and after a soft reset from any state: nothing of the past is left but the lines at the CPU, the run request and the log, and after a soft one the triangle's length counter, disabled, the sample's place and the step mode |
| ApuBus.StatusRead | src/systems/nes/audio/nes_apu.cpp:72-86 | a read of $4015 lowers the frame counter's line and nothing else; the next read gives the same |
| ApuBus.StatusWrite | src/systems/nes/audio/nes_apu.cpp:98-101 | any write of $4015 lowers the delta channel's line |
| ApuChannels.RunToSplits | src/systems/nes/audio/apu_timer.h:25-44 | for any generator, draining to a and then to b gives the state and the (time, delta) list of draining to b |
| ApuChannels.TickCount | src/systems/nes/audio/apu_timer.h:34-44 | over D cycles the loop ticks 0 times if D <= timer, else 1 + (D - timer - 1) / (period + 1) times, with the period fixed |
| ApuChannels.DrainSilent | src/systems/nes/audio/apu_timer.h:25-44 | draining sends nothing if and only if each of those expiries asks for no level or for the one that is there |
| ApuChannels.AddOutputLog | src/systems/nes/audio/apu_timer.h:25-30 | a delta keeps the log in bounds, without zeros, ordered if it was, and adding up to the last output |
| ApuChannels.RunToLog | src/systems/nes/audio/apu_timer.h:25-44 | so does draining any channel, whatever it generates |
| ApuChannels.LfsrStepInjective | src/systems/nes/audio/noise_channel.cpp:7-20 | no two noise register states lead to the same one in either mode |
| ApuChannels.FlagIrrelevant | src/systems/nes/audio/delta_modulation_channel.cpp:73-103 | the DMC run-request flag does not influence what draining produces |
| ApuChannels.DrainKeepsDelays | src/systems/nes/audio/delta_modulation_channel.cpp:73-103 | draining never touches the byte counter or the delays |
| ApuDevices.SquareChannel.Run | src/systems/nes/audio/square_channel.h:31-36 | the timer loop equals draining by duty steps, deltas included |
| ApuDevices.TriangleChannel.Run | src/systems/nes/audio/triangle_channel.cpp:7-14 | the timer loop equals draining by sequence steps, which stop when length or linear counter is 0 |
| ApuDevices.NoiseChannel.Run | src/systems/nes/audio/noise_channel.cpp:7-20 | the timer loop equals draining by register shifts, muted by bit 0 |
| ApuDevices.DeltaModulationChannel.Run | src/systems/nes/audio/delta_modulation_channel.cpp:73-103 | the timer loop equals draining by bit steps; a byte moved to the shifter asks for the next unless a start is pending |
| ApuDevices.ApuFrameCounter.Run | src/systems/nes/audio/apu_frame_counter.cpp:55-114 | one call of the sequencer: IRQ, tick unless blocked, cycles consumed, delayed $4017 write |
| NesApuDevice.NesApu.Run | src/systems/nes/audio/nes_apu.cpp:124-141 | the catch-up loop: the sequencer until no cycle is left, lengths reloaded before the channels are drained |
| NesApuDevice.NesApu.ProcessCpuClock | src/systems/nes/audio/nes_apu.cpp:153-162 | the clock of the lazy APU in the model |
| SoundMixer.NesSoundMixer.AddDelta | src/systems/nes/audio/nes_sound_mixer.cpp:33-38 | moves the balance of its channel by the delta in 16-bit arithmetic, no other balance, and keeps every nonzero cell listed in `timestamps_` |
| SoundMixer.NesSoundMixer.EndFrame | src/systems/nes/audio/nes_sound_mixer.cpp:59-104 | on the empty, first and normal path: nothing pending afterwards, `current_output_` equal to the balance it had, and the buffer heard exactly the changes of four times the volume at each distinct timestamp |
| SoundMixer.NesSoundMixer.Play | src/systems/nes/audio/nes_sound_mixer.cpp:72-96 | walks the sorted timestamps; output and buffer follow the channel levels |
| SoundMixer.SortUnique | src/systems/nes/audio/nes_sound_mixer.cpp:65-67 | strictly increasing with the same members |
| SoundMixer.LevelsStep | src/systems/nes/audio/nes_sound_mixer.cpp:72-96 | from one timestamp to the next each channel moves by its cell there |
| SoundMixer.LevelsEnd | src/systems/nes/audio/nes_sound_mixer.cpp:72-104 | after the last timestamp every channel has played all its cells |
| SoundMixer.PlaybackTelescopes | src/systems/nes/audio/nes_sound_mixer.cpp:72-96 | the changes heard add up to the change of the output |
| SoundMixer.HeardAt | src/systems/nes/audio/nes_sound_mixer.cpp:72-96 | at any time t of a frame the changes heard up to t, and only those, have moved the output to four times the volume of the levels that all deltas up to t give |
| MixerLevels.PlayRun | src/systems/nes/audio/nes_sound_mixer.cpp:33-104 | a new mixer that gets what the APU sends in any run of the console holds, for every channel, the channel's `last_output_` plus what resets have lost, exactly `last_output_` without a reset, and plays that level wherever nothing is pending |
| MixerLevels.PlaySent | src/systems/nes/audio/nes_sound_mixer.cpp:33-104 | the same for any state that has an account |
| MixerLevels.PlayFrames | src/systems/nes/audio/nes_sound_mixer.cpp:33-104 | frame after frame every mixer channel stands at the sum of all deltas sent |
| MixerLevels.PlayFrame | src/systems/nes/audio/nes_sound_mixer.cpp:33-104 | an audio frame sent and played adds its deltas to that |
| MixerLevels.SentIsLevel | src/systems/nes/audio/apu_timer.h:18-50 | what has been sent for a channel is its `last_output_` and what resets have lost of it |
| SpriteEvaluation.EvaluationFindsFirstEight | src/systems/nes/nes_ppu.cpp:1036-1141 | with rendering on and the OAM address 0, dots 1-256 leave in secondary OAM the entries of the first min(8, k) sprites in range in OAM order, count them, tell whether sprite 0 is in range, and with k < 8 keep the overflow flag (`SpriteOverflow.OverflowExactlyWhen` says when it rises) and fix every byte of secondary OAM |
| SpriteEvaluation.ClearDots | src/systems/nes/nes_ppu.cpp:1055-1057 | dots 1-64 fill secondary OAM with $FF |
| SpriteEvaluation.ScanSprite | src/systems/nes/nes_ppu.cpp:1059-1137 | one sprite costs two dots, or eight when it is in range and copied |
| SpriteEvaluation.RestKeeps | src/systems/nes/nes_ppu.cpp:1069-1137 | once OAM is exhausted or secondary OAM full, what was found stays until dot 256 publishes it |
| SpriteEvaluation.Found | src/systems/nes/nes_ppu.cpp:1075-1077 | the sprites i with oam[4i] <= line < oam[4i] + 8, or + 16 when large, in OAM order: the reference for the scan |
| SpriteOverflow.OverflowExactlyWhen | src/systems/nes/nes_ppu.cpp:1108-1134 | dots 1-256 raise the overflow flag if and only if eight sprites are on the line and one of the bytes on the diagonal after the eighth, byte 0 of the next sprite, byte 1 of the one after, looks like a Y coordinate on it: so a ninth sprite may be missed and none be taken for one |
| SpriteOverflow.LineOverflows | src/systems/nes/nes_ppu.cpp:1108-1134 | so does a whole visible line |
| PreRenderLine.PreRenderClears | src/systems/nes/nes_ppu.cpp:200-213 | the pre-render line begins by forgetting the sprites found and the overflow flag |
| PreRenderLine.PowerOnDot | src/systems/nes/nes_ppu.cpp:159-245 | after power-on the first dot begins line 0 of an odd frame with no sprite found |
| PreRenderLine.FirstLineEmpty | src/systems/nes/nes_ppu.cpp:200-213 | so the first visible line shows no sprite |
| PreRenderLine.FirstBytesCopied | src/systems/nes/nes_ppu.cpp:301-312 | with rendering on, its first eight dots copy the eight bytes around the OAM address over the first eight |
| SpriteLines.NextLineShowsFrontSprite | src/systems/nes/nes_ppu.cpp:247-355 | from OAM to the screen: every column of the next line shows the first opaque one of the first eight sprites of the evaluated line, unless it is behind an opaque background, and sprite zero hits exactly when it is that sprite over an opaque background; settings may change between the lines |
| SpriteLines.LineReadiesSprites | src/systems/nes/nes_ppu.cpp:247-355 | 340 dots of a visible line load exactly those sprites in order, index exactly the columns they cover and return the OAM address to 0 |
| SpriteLines.CheckChangesNothing | src/systems/nes/nes_ppu.cpp:505-527 | the `has_sprite_` check never changes a pixel or the hit flag |
| SpriteLines.LoadDotsLoad | src/systems/nes/nes_ppu.cpp:313-327 | dots 257-320 load entry k at dot 261 + 8k if it counts, and `has_sprite_[c]` holds iff some loaded sprite covers column c |
| SpriteLines.RowInTile | src/systems/nes/nes_ppu.cpp:1148-1160 | for a sprite whose Y byte is at most the line and less than 8 below it, or 16 when large, the 8-bit pattern address is that of the row that the sprite's image is defined by, counted from the bottom when flipped, with rows 8-15 of an 8x16 sprite in the second tile of the pair |
| SpriteLines.TileByRow | src/systems/nes/nes_ppu.cpp:1143-1176 | so what is loaded for a sprite on the line is both planes of the row that the line cuts |
| SpriteLines.DrawingKeeps | src/systems/nes/nes_ppu.cpp:247-303 | while the next line is drawn, evaluation does not disturb tiles, index, count or the sprite-zero flag |
| SpriteLines.ReadyShows | src/systems/nes/nes_ppu.cpp:486-538 | a loaded pipeline shows what OAM says |
| SpriteLines.ShadeIsColor | src/systems/nes/nes_ppu.cpp:506-526 | the colour taken from the two planes is the pixel of the pattern row, mirrored when flipped |
| PpuModel.FirstOpaque | src/systems/nes/nes_ppu.cpp:506-526 | the first loaded sprite that covers the column with a nonzero colour, or none |
| PpuDevice.NesPpu.ProcessSpriteEvaluation | src/systems/nes/nes_ppu.cpp:1053-1141 | one dot of evaluation |
| PpuDevice.NesPpu.GetPixelColor | src/systems/nes/nes_ppu.cpp:505-527 | the scan with early exit yields the first opaque sprite over the background, and the hit flag |
| PpuDevice.NesPpu.MarkColumns | src/systems/nes/nes_ppu.cpp:1178-1182 | the loop marks exactly the columns x+1 to x+8 on the screen |
| PpuDevice.NesPpu.Run | src/systems/nes/nes_ppu.cpp:152-157 | one dot, then as many as fit before the given clock, each as in the model |
| PpuModel.ExecPosition | src/systems/nes/nes_ppu.cpp:159-245 | the position part of a dot depends on the frame parity and the skip condition only |
| FrameClock.FrameLength | src/systems/nes/nes_ppu.cpp:159-245 | increments of `frame_count_` are exactly 89342 dots apart, or 89341 when the frame is odd and rendering is on at pre-render dot 339, whatever rendering does at all other dots, and nothing in between looks like a frame start |
| FrameClock.StepIndex | src/systems/nes/nes_ppu.cpp:159-245 | every dot moves one on, the skip two, and line 240 starts the next frame |
| FrameClock.Advance | src/systems/nes/nes_ppu.cpp:159-245 | fewer dots than a frame has bring the next increment strictly closer or pass exactly one |
| FrameClock.ExecsPositions | src/systems/nes/nes_ppu.cpp:159-195 | whole executions follow that clock |
| ConsoleDevice.NesConsole.RunFrame | src/systems/nes/nes_console.cpp:355-367 | the loop terminates and advances the frame counter by exactly one, for any instructions shorter than a frame whose bus cycles change the PPU settings before and after their third dot at will |
| ConsoleDevice.NesConsole.Exec | src/systems/nes/nes_cpu.cpp:179-188 | an instruction of n cycles moves the PPU by 3n dots |
| ClockModel.Lockstep | src/systems/nes/nes_cpu.cpp:168-188 | after n >= 1 cycles from reset, in any mix of reads and writes, the PPU clock is the CPU clock minus 4 and exactly 3n + 2 dots have run |
| ClockModel.CycleKeepsStep | src/systems/nes/nes_cpu.cpp:179-188 | every later cycle runs two dots before the bus access and one after it |
| ClockModel.DotsToFit | src/systems/nes/nes_ppu.cpp:152-157 | the do-while runs exactly the dots that fit, and at least one |
| CpuDevice.NesCpu.Reset | src/systems/nes/nes_cpu.cpp:144-177 | eight dummy cycles run 26 dots and leave the clocks in step with nothing pending |
| CpuDevice.NesCpu.DmaCycle | src/systems/nes/nes_cpu.cpp:584-677 | one iteration of the arbitration loop on flags, locals, bus and PPU |
| CpuDevice.NesCpu.ProcessPendingDma | src/systems/nes/nes_cpu.cpp:493-689 | the whole DMA terminates and equals the model: flags, bus log, 12 clocks per cycle, and the PPU after every write to $2004; without a pending halt nothing happens |
| DmaTransfer.CopyTransfersPage | src/systems/nes/nes_cpu.cpp:558-677 | under any DMC requests: 256 reads of the page in order, each written in the very next cycle, a sprite read between any two DMC fetches, and exactly 513 + alignment + 2 * fetches cycles |
| DmaTransfer.KthWritten | src/systems/nes/nes_cpu.cpp:618-658 | the k-th byte written is what a read of byte k of the page returned one cycle earlier |
| DmaTransfer.FetchesApart | src/systems/nes/nes_cpu.cpp:584-677 | between two DMC fetches of a copy some cycle reads a sprite byte |
| DmaTransfer.StepKeepsCopying | src/systems/nes/nes_cpu.cpp:584-677 | every cycle keeps order, pairing, count and timing |
| DmaTransfer.FireKeepsFresh | src/systems/nes/nes_cpu.cpp:697-713 | a request never makes a fetch possible at once: it always brings a halt and a dummy cycle |
| DmaTransfer.LoopAfterCopy | src/systems/nes/nes_cpu.cpp:584-677 | the loop is the copy followed by what is left of a DMC fetch |
| DmaTransfer.LoopCopiesNothing | src/systems/nes/nes_cpu.cpp:584-677 | without a sprite transfer nothing is read for or written to OAM |
| DmaTransfer.DmcAlone | src/systems/nes/nes_cpu.cpp:558-677 | a DMC fetch alone takes three cycles, or four when a get cycle follows the halt |
| DmaTransfer.OpenRequestAfterCopy | src/systems/nes/nes_cpu.cpp:584-677 | a DMC request still open when the copy ends costs one more cycle when ready or aborted, else three |
| DmaStops.StopEndsFetches | src/systems/nes/nes_cpu.cpp:571-677 | after a stop in cycle n, and no later start, a sample byte is fetched in cycle n + 1 and never again if that is a get cycle for which the engine was ready, and otherwise not at all: for every DMA with and without sprites |
| DmaStops.LateStopFetches | src/systems/nes/nes_cpu.cpp:586-606 | a stop in the dummy cycle: the byte is fetched all the same |
| DmaStops.StoppedInHaltCycle | src/systems/nes/nes_cpu.cpp:571-578 | a stop in the halt cycle takes back a lone fetch: the DMA is that one cycle |
| DmaStops.StoppedWithSprites | src/systems/nes/nes_cpu.cpp:571-578 | in the halt cycle of a sprite transfer it ends the DMC's part but for the dummy cycle |
| DmaStops.StoppedBeforeHalt | src/systems/nes/nes_cpu.cpp:703-713 | before it, the whole request, the halt included |
| DmaStops.StopsIdle | src/systems/nes/nes_cpu.cpp:703-713 | without a running transfer stops change nothing |
| DmaStops.StartAsks | src/systems/nes/nes_cpu.cpp:697-701 | a start always asks for a halt and a dummy cycle, and leaves an abort pending |
| DmaStops.StartFetchesOnce | src/systems/nes/nes_cpu.cpp:584-677 | started and left alone, in or outside a sprite transfer, the engine fetches exactly one byte, in the third or fourth cycle by parity |
| DmaStops.StartLeavesNothing | src/systems/nes/nes_cpu.cpp:584-677 | and then nothing is pending |
| DmaStops.FetchForgets | src/systems/nes/nes_cpu.cpp:598-606 | requests in the very cycle of a fetch neither stop that transfer nor start another |
| DmaStops.IdleFetchesNothing | src/systems/nes/nes_cpu.cpp:584-677 | with no transfer running and none started nothing is fetched |
| DmaStops.CopyIsPrefix | src/systems/nes/nes_cpu.cpp:584-677 | the copy's log is the beginning of the loop's, so all this holds there |
| DmaModel.StepProgress | src/systems/nes/nes_cpu.cpp:584-677 | once requests die out every cycle moves a byte, drops an obligation or waits for parity: the loop ends |
| OamDma.DmaFillsOam | src/systems/nes/nes_ppu.cpp:803-812 | with rendering off or in vertical blanking the DMA replaces all of OAM, from the OAM address on and around, by the page's bytes less bits 2 to 4 of attribute bytes, and the address ends where it began |
| OamDma.BlankCyclesFill | src/systems/nes/nes_ppu.cpp:803-812 | the same for any part of a transfer |
| OamDma.DrawingKeepsOam | src/systems/nes/nes_ppu.cpp:803-811 | with rendering on in the visible lines nothing that a DMA writes reaches OAM |
| OamDma.WriteSkips | src/systems/nes/nes_ppu.cpp:809-811 | a write there only moves the address to the next sprite |
| EepromTransfers.WrittenIsReadBack | src/systems/nes/mappers/eeprom_24c0x.h:141-254 | for any state of the chip, address a and up to 256 bytes: START, 0xA0, a, bytes, STOP and then START, 0xA0, a, START, 0xA1 with acked reads returns those bytes most significant bit first, wrapping modulo 256, every byte acknowledged and every other cell as the falling edge before START leaves it |
| EepromTransfers.WriteTransferStores | src/systems/nes/mappers/eeprom_24c0x.h:163-253 | a write of any length stores byte after byte with the address wrapping |
| EepromTransfers.ReadTransferReads | src/systems/nes/mappers/eeprom_24c0x.h:163-253 | a sequential read of any length returns consecutive cells |
| EepromTransfers.SendReceived | src/systems/nes/mappers/eeprom_24c0x.h:172-217 | a byte sent replaces the register whatever it held, is acknowledged and completes, unless it addresses another chip |
| EepromTransfers.ReceiveBitsReads | src/systems/nes/mappers/eeprom_24c0x.h:151-156 | eight clocks show the data register, most significant bit first |
| EepromTransfers.OtherChipsIgnored | src/systems/nes/mappers/eeprom_24c0x.h:199-217 | a chip code without bits 7 and 5 is not acknowledged and whatever follows up to the next START changes nothing |
| EepromTransfers.AckedChips | src/systems/nes/mappers/eeprom_24c0x.h:199-217 | a chip code is acknowledged if and only if its bits 7 and 5 are set |
| EepromTransfers.NackRepeats | src/systems/nes/mappers/eeprom_24c0x.h:191-196 | a byte the master does not acknowledge is sent again, and the one after it is skipped |
| EepromTransfers.BitAtIsDigit | src/systems/nes/mappers/eeprom_24c0x.h:142-156 | bit n counted from the top is binary digit 7 - n |
| EepromTransfers.LoweredStores | src/systems/nes/mappers/eeprom_24c0x.h:198-240 | that edge leaves memory alone unless the chip was caught with the clock high and all eight bits of a byte in, which it then stores |
| EepromTransfers.PartialByteLost | src/systems/nes/mappers/eeprom_24c0x.h:232-240 | a byte cut short by STOP leaves memory unchanged |
| EepromTransfers.StartListens | src/systems/nes/mappers/eeprom_24c0x.h:164-167 | from any state START selects nothing, keeps memory once the clock is low, and keeps the word address unless one was being sent |
| EepromTransfers.StopIdles | src/systems/nes/mappers/eeprom_24c0x.h:168-170 | STOP ends a transfer without touching memory |
| EepromDevice.Eeprom24C02.WriteLines | src/systems/nes/mappers/eeprom_24c0x.h:163-253 | START, STOP, rising and falling edge, told apart and acted on as in the model |
| StateRoundTrip.SavedIsLoaded | src/core/state_stream.h:36-122 | loading a saved stream returns every value of any schema, whatever the fields held before, without error and with nothing left |
| StateRoundTrip.TruncationIsDetected | src/core/state_stream.h:36-122 | loading any strict prefix ends with the error flag set |
| StateRoundTrip.LoadedIsSaved | src/core/state_stream.h:36-122 | a stream that loads without error and without rest saves to the identical bytes |
| StateRoundTrip.OtherSizeRefused | src/systems/nes/nes_state.cpp:142-152 | a state in which a fixed-size vector has another size than the loader's sets the error flag, whatever the other fields are |
| StateRoundTrip.FixedRefused | src/systems/nes/nes_state.cpp:142-152 | and the vector keeps its contents |
| StateRoundTrip.FieldRead | src/core/state_stream.h:36-122 | one saved field is read back and nothing else is consumed |
| StateRoundTrip.FieldSaved | src/core/state_stream.h:36-122 | one field read without error saves to the bytes it was read from |
| StateRoundTrip.FieldSame | src/core/state_stream.h:50-122 | what is read without error does not depend on what follows |
| StateCodec.DecodeEncode | src/core/state_stream.h:36-60 | signed and unsigned integers of every width survive |
| StateCodec.EncodeDecode | src/core/state_stream.h:36-60 | and every byte pattern is the encoding of what it decodes to |
| StateCodec.FromLeLe | src/core/ear6.cpp:53-79 | little-endian digits are read back |
| StateCodec.LeFromLe | src/core/ear6.cpp:53-79 | and so are digits from their number |
| StateStreamDevice.StateStream.Sync | src/core/state_stream.h:37-60 | saving appends the encoding, loading decodes or fails leaving the value |
| StateStreamDevice.StateStream.SyncBool | src/core/state_stream.h:62-72 | a byte above 1 is an error |
| StateStreamDevice.StateStream.SyncBytes | src/core/state_stream.h:74-87 | a fixed block |
| StateStreamDevice.StateStream.SyncVector | src/core/state_stream.h:105-122 | the size is checked against what is left before elements are read |
| StateStreamDevice.StateStream.SyncSpan | src/core/state_stream.h:90-102 | the loop syncs element by element; those that cannot be read keep their contents |
| StateStreamDevice.StateStream.SyncFixedVector | src/systems/nes/nes_state.cpp:142-152 | the size that is read must be the size that is there |
| StateStreamDevice.StateStream.SyncOptionalFixedVector | src/systems/nes/nes_state.cpp:154-171 | the vector is resized to the size that is read, 0 or the fixed one, before its elements are |
| StateContainer.EditRejected | src/core/ear6.cpp:155-177 | a container in which exactly one byte anywhere is changed is rejected, whatever its body would decode to |
| StateContainer.PrefixRejected | src/core/ear6.cpp:155-177 | every proper prefix is rejected |
| StateContainer.ExtensionRejected | src/core/ear6.cpp:155-177 | every extension is rejected |
| StateContainer.BuiltIsChecked | src/core/ear6.cpp:287-298 | a built container passes all checks and hands back its body |
| StateContainer.BuiltIsParsed | src/core/ear6.cpp:155-223 | and is accepted exactly when the body decodes to content of the recorded identity and less than 2^31 bytes |
| StateContainer.AcceptedExactly | src/core/ear6.cpp:155-177 | the checks accept a byte string, and hand back the body, if and only if it is magic, version, preamble size, body size, CRC of the body and zero, then any further preamble bytes, then the body |
| StateLayout.BuiltBytes | src/core/ear6.cpp:287-298 | the 32 preamble bytes of a built container one by one |
| StateLayout.FieldLayout | src/core/state_stream.h:36-122 | the bytes of every kind of field, position by position: two's complement, least significant first, sizes in eight bytes |
| StateLayout.SaveInOrder | src/core/state_stream.h:36-122 | fields follow one another in order |
| StateLayout.MapperLayout | src/systems/nes/nes_state.cpp:495-587 | the bytes of a whole mapper in order |
| StateLayout.PointerEntry | src/systems/nes/nes_state.cpp:517-546 | a pointer saves as the code of its array and the distance from its start |
| StateContainer.BuildState | src/core/ear6.cpp:287-300 | writes that container |
| StateContainer.ParseState | src/core/ear6.cpp:155-223 | accepts exactly what the model accepts, else -4 |
| Checksums.EditChangesCrc | src/core/ear6.cpp:81-90 | changing one byte of a body of any length changes its CRC-32 |
| Checksums.CrcByteInjective | src/core/ear6.cpp:84-87 | a byte step loses no state and tells bytes apart |
| Checksums.CrcBitInjective | src/core/ear6.cpp:86 | a bit step is one-to-one on 32-bit states |
| Checksums.EditChangesIdentity | src/core/ear6.cpp:92-99 | contents of one length that differ in exactly one byte have different identities |
| Checksums.TimesPrimeInjective | src/core/ear6.cpp:96-108 | multiplying by the odd prime is one-to-one modulo 2^64 |
| CrcPolynomial.CrcIsRemainder | src/core/ear6.cpp:81-90 | the CRC of a message is the complement of the remainder, on division by x^32+x^26+x^23+x^22+x^16+x^12+x^11+x^10+x^8+x^7+x^5+x^4+x^2+x+1, of its bits followed by 32 zeros and with the first 32 complemented, bit-reversed: the CRC-32 of RFC 1952 |
| CrcPolynomial.RemainderUnique | src/core/ear6.cpp:81-90 | and no other word is |
| IdentityLaw.IdentityStep | src/core/ear6.cpp:92-99 | the identity of a content is that of the content without its last byte, exclusive-ored with it and multiplied by the prime 2^40 + 435, modulo 2^64, in numbers, from 1469598103934665603 |
| IdentityLaw.NeverFnv1a | docs/state-format.md:57 | no content has its FNV-1a 64 hash for an identity |
| Checksums.Crc32 | src/core/ear6.cpp:81-90 | the loops compute that CRC |
| Checksums.ContentIdentity | src/core/ear6.cpp:92-99 | the loop computes that identity |
| MapperPages.PageSurvives | src/systems/nes/nes_state.cpp:517-580 | with the same contents laid out anywhere, a page pointer that was saved loads as one through which every read inside its array returns the byte it returned before; null stays null |
| MapperPages.StrayFails | src/systems/nes/nes_state.cpp:529-546 | saving fails exactly for a non-null pointer into no known array |
| MapperPages.LoadedIsSavable | src/systems/nes/nes_state.cpp:549-578 | loading accepts exactly the entries that saving some pointer of the same layout produces |
| MapperState.MapperSurvives | src/systems/nes/nes_state.cpp:495-587 | any mapper whose pages can all be told, saved and loaded, anywhere in a stream, into any mapper of the same ROM and array sizes, whatever its RAM, page tables and memory layout: no error, exactly the saved bytes consumed, every RAM array restored, and every PRG and CHR page read inside its array returns the byte it returned before |
| MapperState.MapperTruncated | src/systems/nes/nes_state.cpp:495-587 | every strict prefix of a saved mapper sets the error flag |
| MapperState.LoadedMapperSaves | src/systems/nes/nes_state.cpp:495-587 | bytes that load without error and without rest leave a mapper that saves; it saves to the identical bytes if and only if no null page came with an offset, which loading ignores |
| MapperState.ValuesTaken | src/systems/nes/nes_state.cpp:495-587 | loading the fields of one mapper into another of the same cartridge gives it the contents, mirroring and access tables of the first and the pages its entries lead to |
| MapperState.EntryBack | src/systems/nes/nes_state.cpp:517-580 | a pointer that was loaded saves to the entry it came from, but for the offset of a null page |
| MapperStateDevice.BaseMapper.Serialize | src/systems/nes/nes_state.cpp:495-587 | the one pass that saves or loads, by the stream's direction, equals the model's save and load: bytes, error flag and whole new state |
| MapperStateDevice.BaseMapper.SyncOwn | src/systems/nes/nes_state.cpp:632-635 | the loop over the mapper's own arrays |
| MapperStateDevice.SyncPages | src/systems/nes/nes_state.cpp:517-583 | the loop over a page table: entries saved or read, pointers restored, failure of any page noted |
| MapperStateDevice.SaveThenLoad | src/systems/nes/nes_state.cpp:495-587 | one mapper saves and another of the same cartridge loads: saving fails exactly for a stray pointer, otherwise everything is restored |
| VrcIrqUnit.NoDrift | src/systems/nes/mappers/vrc_irq.cpp:17-56 | n clocks after an enabling control write with latch L, acknowledgements in between or not: prescaler 341 - (3n mod 341), counter clocked floor(3n/341) times (n in cycle mode), one IRQ per 256 - L of those |
| VrcIrqUnit.StoppedStays | src/systems/nes/mappers/vrc_irq.cpp:53-56 | a unit stopped by an acknowledgement stays as it is |
| VrcIrqUnit.FirstAckStops | src/systems/nes/mappers/vrc_irq.cpp:42-56 | after a control write with bit 0 clear the first acknowledgement ends it: no further interrupt, whatever follows |
| VrcIrqUnit.OffUntilAck | src/systems/nes/mappers/vrc_irq.cpp:42-56 | after one with bit 1 clear nothing happens before the first acknowledgement, which starts the unit if bit 0 is set |
| VrcIrqUnit.VrcIrq.ProcessCpuClock | src/systems/nes/mappers/vrc_irq.cpp:17-32 | one clock, 16-bit prescaler arithmetic included |
| Mmc3Mapper.TableExactlyWhen | src/systems/nes/mappers/base_mapper.cpp:47-152 | after a load and any writes to any address PRG ROM is as loaded, and the table from $8000 on is what the registers ask for; at $6000-$7FFF it is so if and only if one of the writes went to $8000-$9FFF or to an odd address in $A000-$BFFF, and until then that range is the base class's RAM |
| Mmc3Mapper.ReadsFollowRegisters | src/systems/nes/mappers/base_mapper.cpp:37-126 | after a load and any writes, a read from $8000 on gives the byte of PRG ROM, as loaded, of the bank that mode and registers 6 and 7 select, modulo the page count |
| Mmc3Writes.ReadsFollowWrites | src/systems/nes/mappers/mapper_004.cpp:81-160 | the same in terms of the writes alone, on boards with and without bus conflicts: $A000 shows the page last written at an odd address in $8000-$9FFF with register 7 selected, $8000 that of register 6 and $C000 page 65534, or the other way round when bit 6 of the last even write was set, $E000 page 65535, all modulo the page count; before any write, pages 0 and 1 |
| Mmc3Writes.WorkRamFollowsWrites | src/systems/nes/mappers/mapper_004.cpp:81-136 | bit 7 of the last odd write to $A000-$BFFF enables the work RAM and bit 6 protects it |
| Mmc3Writes.HeardAsWritten | src/systems/nes/mappers/base_mapper.cpp:47-54 | without bus conflicts what the mapper hears is what is written |
| Mmc3Mapper.WorkRamExactlyWhen | src/systems/nes/mappers/base_mapper.cpp:37-54 | after a load and any writes, $6000-$7FFF is work RAM seen when enabled and written only when also not protected if the mapping has been updated, and plain RAM whatever the flags say until then |
| Mmc3Mapper.LoadIgnoresGuard | src/systems/nes/mappers/base_mapper.cpp:146-152 | right after a load work RAM is disabled, yet a write to $6000 sticks and reads back |
| Mmc3Mapper.WriteKeepsTable | src/systems/nes/mappers/mapper_004.cpp:81-160 | every write, bus conflicts or not, keeps the table in one of these two forms and PRG ROM unchanged, and only register writes that end in update_state change the form |
| Mmc3Mapper.StoreKeeps | src/systems/nes/mappers/base_mapper.cpp:47-54 | a store goes through whatever the page points to; below $8000 that is never PRG ROM |
| Mmc3Mapper.UpdateCaches | src/systems/nes/mappers/mapper_004.cpp:129-160 | update_state makes the table a function of the registers |
| Mmc3Mapper.LastBankFixed | src/systems/nes/mappers/base_mapper.cpp:117-126 | $E000 shows the last bank if and only if the page count divides 65536 |
| Mmc3Mapper.LastBankMissed | src/systems/nes/mappers/base_mapper.cpp:117-126 | with twelve pages every read from $E000 on gives a byte of the fourth page instead, after any writes |
| Mmc3Device.Mapper004.constructor | src/systems/nes/mappers/mapper_004.cpp:9-46 | init and then setup_default_work_ram on a fresh object give the loaded state |
| Mmc3Device.Mapper004.SetCpuMemoryMapping | src/systems/nes/mappers/base_mapper.cpp:80-91 | the loop fills the entries of the range with consecutive pages |
| Mmc3Device.Mapper004.WriteRamValue | src/systems/nes/mappers/base_mapper.cpp:47-54 | a register from $8000 on, the value masked by the ROM on a board with bus conflicts; below, a store through any writable page |
| Mmc3Device.Mapper004.ReadRamValue | src/systems/nes/mappers/base_mapper.cpp:37-45 | a readable page's byte, else open bus |
| AudioRing.AudioRingBuffer.Push | apps/desktop/common/audio_ring_buffer.cpp:16-36 | the contents become the last capacity elements of contents plus input, for every wrap position |
| AudioRing.AudioRingBuffer.Pop | apps/desktop/common/audio_ring_buffer.cpp:38-49 | returns and removes the first min(count, size) elements |
| AudioRing.AudioRingBuffer.Clear | apps/desktop/common/audio_ring_buffer.cpp:10-14 | empties the ring |
| AudioRing.AudioRingBuffer.GetSize | apps/desktop/common/audio_ring_buffer.cpp:51-54 | the number of elements held |
| AudioRing.AudioRingBuffer.constructor | apps/desktop/common/audio_ring_buffer.cpp:7-8 | an empty ring |
| AudioRing.PushesKeepLast | apps/desktop/common/audio_ring_buffer.cpp:16-36 | however samples are split into pushes, the ring holds the last of them that fit |
| AudioRing.DropFront | apps/desktop/common/audio_ring_buffer.cpp:25-29 | advancing the read position drops the oldest elements |
| AudioRing.ExtendWindow | apps/desktop/common/audio_ring_buffer.cpp:31-35 | what is written behind the contents, wrapped or not, extends them |
| AudioRing.PoppedInOrder | apps/desktop/common/audio_ring_buffer.cpp:10-55 | in every history of pushes, pops and clears the ring holds the newest of everything given, and what was popped came in the order given, all of it before what is held |
| AudioRing.NothingLost | apps/desktop/common/audio_ring_buffer.cpp:10-55 | everything popped, followed by what is held, is everything given if and only if no push overflowed and no clear found anything |
| AudioRing.OperateLoses | apps/desktop/common/audio_ring_buffer.cpp:10-55 | one operation loses nothing exactly then |

## Left out

- NesApuDevice.NesApu.Reset: the ring and accumulator of finished audio frames, which it clears, are not modelled.
- NesApuDevice.NesApu.ReadRam: the open-bus bit of $4015 and the nibble packing of the debug registers $4018 and $4019 are not formed; the two levels are returned side by side.
- NesApuDevice.NesApu.EndFrame: the sample accumulator and the ring of finished audio frames are not modelled; a frame is the lists of deltas handed to the mixer.
- ApuDevices.ApuFrameCounter.Run: the callback into the APU is returned as the tick it asks for, since one call ticks at most once. Only the NTSC step table is used, as in the program.
- SoundMixer.NesSoundMixer.EndFrame: the volume curve and the band-limited buffer are not modelled; the buffer is the list of changes it is given.
- SpriteLines.NextLineShowsFrontSprite: rendering stays on and the sprite size fixed during the evaluated line, and the OAM address is 0 at its start, which the line before it ensures.
- SpriteEvaluation.EvaluationFindsFirstEight: the OAM address is 0 when evaluation starts; from another address, which a game can reach by switching rendering on inside a line, the model follows the code, but nothing is proved about what is found.
- PpuDevice.NesPpu.GetPixelColor: the background pixel and the clipping limits are parameters, and the two layer switches that are always on are not fields.
- PpuDevice.NesPpu.Run: background fetches, scrolling, vertical-blank flag, bus addresses and frame buffers are not part of the state; OAM decay is never enabled, dummy fetches of slots without a sprite are not recorded, and OAM corruption and the address bump at mid-line rendering changes are not modelled.
- ConsoleDevice.NesConsole.RunFrame: instructions are sequences of bus cycles shorter than a frame, and a register write is the PPU settings it leads to, at the third dot of its cycle and after it. The closing end_frame and push_frame are not called.
- ClockModel.Lockstep: master clocks are unbounded; their 64 bits last for tens of thousands of years of emulated time.
- CpuDevice.NesCpu.Reset: the reset vector, the registers and the interrupt edge detection are not modelled.
- CpuDevice.NesCpu.DmaCycle: the fetched byte is recorded in the bus log and not handed to the APU.
- CpuDevice.NesCpu.ProcessPendingDma: bus reads return arbitrary values by cycle and address; their side effects, the merged controller reads and the skipped dummy reads are not modelled. Requests arrive while a cycle starts, in any finite pattern.
- OamDma.DmaFillsOam: nothing is claimed for a transfer that runs from blanking into the drawn lines or back, beyond what its parts do.
- EepromTransfers.WrittenIsReadBack: of the chip only, for lines that carry 0 or 1. The 24C01 is not part of this model: it differs in bit order and takes one byte per transfer.
- StateRoundTrip.SavedIsLoaded: schemas of integers, enums, bools, blocks, arrays and the three kinds of vectors; the field lists of the individual components are not enumerated.
- StateContainer.ParseState: the body decoder, the null-data and arena results, name hint and preview are not modelled; rejection is decided before them.
- MapperState.MapperSurvives: of the arrays, mirroring and tables that every mapper has; the registers of a single mapper are fields of its own schema, and some mappers do not serialize all of theirs. Arrays are at most 4 GiB, and the two ROMs are the same on both sides.
- Mmc3Mapper.ReadsFollowRegisters: CHR banks, mirroring and the scanline IRQ are not modelled. PRG ROM is a whole number of 8 KiB pages, at most 32768 of them, and the base class's RAM has at least 8 KiB; a header that asks for less makes the program map beyond its array.
- Mmc3Device.Mapper004.constructor: CHR pages, mirroring and the scanline interrupt are not part of the state.
- Mmc3Device.Mapper004.WriteRamValue: the CHR mode bit and the mirroring and interrupt registers have no effect here.
- AudioRing.AudioRingBuffer.Push: the mutex is not modelled, every operation is atomic; null buffers are empty ones.
- Instruction decoding, the other mappers and expansion audio, palettes, front ends, file formats and tracing.
