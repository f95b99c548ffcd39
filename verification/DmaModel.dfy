/** The CPU's DMA engine as values: one loop cycle of process_pending_dma (src/systems/nes/nes_cpu.cpp). */
module DmaModel {
  import opened Types

  // What the APU can do to the DMC engine while a cycle starts.
  datatype Request = Start | Stop

  datatype Flags = Flags(halt: bool, dummy: bool, running: bool, abort: bool)

  /** start_dmc_transfer and stop_dmc_transfer */
  function Fire(f: Flags, r: Request): Flags {
    match r
    case Start => f.(running := true, dummy := true, halt := true)
    case Stop =>
      if !f.running then f
      else if f.halt then Flags(false, false, false, f.abort)
      else f.(abort := true)
  }

  function FireAll(f: Flags, requests: seq<Request>): Flags
    decreases |requests|
  {
    if requests == [] then f else FireAll(Fire(f, requests[0]), requests[1..])
  }

  /** Every cycle gets rid of one pending obligation. */
  function Clear(f: Flags): Flags {
    if f.abort then Flags(false, false, false, false)
    else if f.halt then f.(halt := false)
    else f.(dummy := false)
  }

  predicate CanFetch(f: Flags) { f.running && !f.halt && !f.dummy }

  /** What a cycle does on the bus; `Quiet` is a halt, alignment or dummy cycle. */
  datatype Access = Quiet | Fetch(value: u8) | Read(address: u16, value: u8) | Write(value: u8)

  /** What the APU requests and what reads return, by cycle of this DMA. */
  datatype World = World(requests: seq<seq<Request>>, sprites: (nat, u16) -> u8, samples: nat -> u8)

  function RequestsAt(w: World, n: nat): seq<Request> { if n < |w.requests| then w.requests[n] else [] }

  /** `log` has an entry per cycle; `even` is the parity of the CPU cycle count, a get cycle being next. */
  datatype Dma = Dma(f: Flags, sprite: bool, page: u8, counter: nat, addr: u8, value: u8, even: bool, log: seq<Access>)

  predicate Busy(d: Dma) { d.f.running || d.sprite }

  /** A byte is only halfway before a put cycle, and `addr` counts the bytes read. */
  predicate DmaOk(d: Dma) {
    d.sprite ==>
      && d.counter < 512 && (d.even ==> d.counter % 2 == 0)
      && d.addr == (d.counter + 1) / 2 % 0x100
  }

  /** One iteration of the loop. */
  function Step(d: Dma, w: World): (e: Dma)
    requires DmaOk(d)
    ensures DmaOk(e) && |e.log| == |d.log| + 1 && e.counter <= d.counter + if d.sprite then 1 else 0
  {
    var n := |d.log|;
    var f := FireAll(Clear(d.f), RequestsAt(w, n));
    var next := d.(f := f, even := !d.even);
    if d.even && CanFetch(d.f) then
      var v := w.samples(n);
      next.(f := f.(running := false, abort := false), value := v, log := d.log + [Fetch(v)])
    else if d.even && d.sprite then
      var address := d.page * 0x100 + d.addr;
      var v := w.sprites(n, address);
      next.(value := v, addr := (d.addr + 1) % 0x100, counter := d.counter + 1,
            log := d.log + [Read(address, v)])
    else if !d.even && d.sprite && d.counter % 2 == 1 then
      next.(counter := d.counter + 1, sprite := d.counter + 1 != 512, log := d.log + [Write(d.value)])
    else next.(log := d.log + [Quiet])
  }

  // ---- the whole transfer ----

  function Left(d: Dma, w: World): nat { if |d.log| < |w.requests| then |w.requests| - |d.log| else 0 }

  function Pending(f: Flags): nat {
    (if f.halt then 1 else 0) + (if f.dummy then 1 else 0) + (if f.running then 1 else 0) + if f.abort then 1 else 0
  }

  /** Requests die out; then every cycle moves a byte, drops an obligation or waits one cycle for parity. */
  lemma StepProgress(d: Dma, w: World)
    requires DmaOk(d) && Busy(d)
    ensures var e := Step(d, w);
            || Left(e, w) < Left(d, w)
            || (Left(e, w) == Left(d, w) && (e.counter > d.counter
               || (e.counter == d.counter && (Pending(e.f) < Pending(d.f)
                  || (Pending(e.f) == Pending(d.f) && e.even && !d.even)))))
  {}

  /** The loop while the sprite transfer is on. */
  function Copy(d: Dma, w: World): (e: Dma)
    requires DmaOk(d)
    ensures DmaOk(e) && !e.sprite
    decreases Left(d, w), 512 - d.counter, Pending(d.f), if d.even then 0 else 1
  {
    if !d.sprite then d else
      StepProgress(d, w);
      Copy(Step(d, w), w)
  }

  /** The whole loop. */
  function Loop(d: Dma, w: World): (e: Dma)
    requires DmaOk(d)
    ensures DmaOk(e) && !Busy(e)
    decreases Left(d, w), 512 - d.counter, Pending(d.f), if d.even then 0 else 1
  {
    if !Busy(d) then d else
      StepProgress(d, w);
      Loop(Step(d, w), w)
  }

  /** process_pending_dma up to the loop: the halt cycle; `even` is the parity of the cycle count after it. */
  function Enter(f: Flags, sprite: bool, page: u8, even: bool, w: World): (d: Dma)
    ensures DmaOk(d)
  {
    var g := FireAll(f.(halt := false), RequestsAt(w, 0));
    var h := if !g.abort then g
             else g.(running := false, abort := false, dummy := g.dummy && sprite);
    Dma(h, sprite, page, 0, 0, 0, even, [Quiet])
  }
}
