/** The demo's control (main/main.c): which effect is active, how a switch
    closes the outgoing effect and initialises the incoming one, and the two
    event bits the render loop and the flush loop pass between them. The
    FreeRTOS tasks are modelled as atomic steps taken one at a time. */
module App {
  import opened CTypes
  import opened Sink
  import Metaballs
  import Plasma
  import Rotozoom
  import Deform

  const EFFECTS := 4
  /** The event group bits: `1 << 0` and `1 << 1`. */
  const RENDER_FINISHED: bv32 := 1
  const FLUSH_STARTED: bv32 := 2

  /** The effect a switch moves to: `(effect + 1) % 4`. */
  function NextEffect(effect: nat): (e: nat)
    ensures e < EFFECTS
    ensures effect < EFFECTS ==> (e == 0 <==> effect == EFFECTS - 1)
    ensures effect < EFFECTS && e != 0 ==> e == effect + 1
  {
    (effect + 1) % EFFECTS
  }

  /** The effect after `n` switches. */
  function SwitchN(effect: nat, n: nat): nat
  {
    if n == 0 then effect else NextEffect(SwitchN(effect, n - 1))
  }

  /** `n` switches advance the effect by n, modulo 4. */
  lemma {:induction false} SwitchNIs(effect: nat, n: nat)
    requires effect < EFFECTS
    ensures SwitchN(effect, n) == (effect + n) % EFFECTS
  {
    if n > 0 {
      SwitchNIs(effect, n - 1);
      var b := effect + n - 1;
      assert b == EFFECTS * (b / EFFECTS) + b % EFFECTS;
    }
  }

  /** Every effect comes back after four switches and not before: the demo
      shows all four in turn. */
  lemma Rotation(effect: nat, n: nat)
    requires effect < EFFECTS && 0 < n <= EFFECTS
    ensures SwitchN(effect, n) == effect <==> n == EFFECTS
  {
    SwitchNIs(effect, n);
  }

  /** One pass of flush_task: a zero-timeout wait for RENDER_FINISHED that
      clears it on exit; when it was set, FLUSH_STARTED is set and the frame
      flushed. Returns the new bits and whether a flush happened. */
  function FlushPass(bits: bv32): (r: (bv32, bool))
    ensures r.1 <==> bits & RENDER_FINISHED != 0
    ensures r.1 ==> r.0 & RENDER_FINISHED == 0 && r.0 & FLUSH_STARTED != 0
    ensures !r.1 ==> r.0 == bits
    ensures r.0 & !(RENDER_FINISHED | FLUSH_STARTED) == bits & !(RENDER_FINISHED | FLUSH_STARTED)
  {
    if bits & RENDER_FINISHED != 0 then
      ((bits & !RENDER_FINISHED) | FLUSH_STARTED, true)
    else
      (bits, false)
  }

  /** wait_for_vsync: with double buffering, a wait for FLUSH_STARTED that
      clears it on exit or times out; otherwise nothing. Returns the new bits
      and whether the flag was seen. */
  function Vsync(bits: bv32, doubleBuffering: bool): (r: (bv32, bool))
    ensures r.1 <==> doubleBuffering && bits & FLUSH_STARTED != 0
    ensures r.0 & FLUSH_STARTED == if r.1 then 0 else bits & FLUSH_STARTED
    ensures r.0 & !FLUSH_STARTED == bits & !FLUSH_STARTED
  {
    if doubleBuffering && bits & FLUSH_STARTED != 0 then
      (bits & !FLUSH_STARTED, true)
    else
      (bits, false)
  }

  /** The steps of the two loops that touch the event bits. */
  datatype Step =
    | FlushTask      // one pass of flush_task
    | VsyncWait      // wait_for_vsync in demo_task
    | RenderDone     // demo_task setting RENDER_FINISHED after a render

  /** The event bits and how often each thing has happened so far. */
  datatype Run = Run(bits: bv32, flushes: nat, frames: nat, seen: nat)

  function Next(r: Run, s: Step, doubleBuffering: bool): Run
  {
    match s
    case FlushTask =>
      var (bits, flushed) := FlushPass(r.bits);
      r.(bits := bits, flushes := if flushed then r.flushes + 1 else r.flushes)
    case VsyncWait =>
      var (bits, seen) := Vsync(r.bits, doubleBuffering);
      r.(bits := bits, seen := if seen then r.seen + 1 else r.seen)
    case RenderDone =>
      r.(bits := r.bits | RENDER_FINISHED, frames := r.frames + 1)
  }

  /** The state after `steps`, from the empty event group in which demo_task
      has set RENDER_FINISHED once before its first frame. */
  function Replay(steps: seq<Step>, doubleBuffering: bool): Run
  {
    if |steps| == 0 then Run(RENDER_FINISHED, 0, 0, 0)
    else Next(Replay(steps[..|steps| - 1], doubleBuffering), steps[|steps| - 1], doubleBuffering)
  }

  function Pending(bits: bv32, flag: bv32): nat
  {
    if bits & flag != 0 then 1 else 0
  }

  /** Each flush used up one RENDER_FINISHED and each vsync sighting one
      FLUSH_STARTED, counting a flag still set as one not yet used. */
  ghost predicate Balanced(r: Run)
  {
    && r.flushes + Pending(r.bits, RENDER_FINISHED) <= r.frames + 1
    && r.seen + Pending(r.bits, FLUSH_STARTED) <= r.flushes
  }

  /** Every step keeps the books balanced. */
  lemma NextBalanced(r: Run, s: Step, doubleBuffering: bool)
    requires Balanced(r)
    ensures Balanced(Next(r, s, doubleBuffering))
  {
    match s
    case FlushTask => FlushBalanced(r);
    case VsyncWait => VsyncBalanced(r, doubleBuffering);
    case RenderDone => RenderBalanced(r);
  }

  lemma FlushBalanced(r: Run)
    requires Balanced(r)
    ensures Balanced(Next(r, FlushTask, false))
  {
    var (bits, flushed) := FlushPass(r.bits);
    if flushed {
      assert Pending(bits, RENDER_FINISHED) == 0 && Pending(bits, FLUSH_STARTED) == 1;
    }
  }

  lemma VsyncBalanced(r: Run, doubleBuffering: bool)
    requires Balanced(r)
    ensures Balanced(Next(r, VsyncWait, doubleBuffering))
  {
    var (bits, seen) := Vsync(r.bits, doubleBuffering);
    assert bits & RENDER_FINISHED == r.bits & RENDER_FINISHED by {
      BitOfRest(bits, r.bits);
    }
  }

  /** RENDER_FINISHED lies outside every mask that excludes FLUSH_STARTED. */
  lemma BitOfRest(a: bv32, b: bv32)
    requires a & !FLUSH_STARTED == b & !FLUSH_STARTED
    ensures a & RENDER_FINISHED == b & RENDER_FINISHED
  {
    assert a & RENDER_FINISHED == (a & !FLUSH_STARTED) & RENDER_FINISHED;
    assert b & RENDER_FINISHED == (b & !FLUSH_STARTED) & RENDER_FINISHED;
  }

  lemma RenderBalanced(r: Run)
    requires Balanced(r)
    ensures Balanced(Next(r, RenderDone, false))
  {
    assert (r.bits | RENDER_FINISHED) & FLUSH_STARTED == r.bits & FLUSH_STARTED;
  }

  /** In every interleaving of the two loops, no flush starts without a
      finished frame (the first flush uses the flag set before the first
      frame), and the render loop never sees FLUSH_STARTED that no flush
      set. */
  lemma {:induction false} Handshake(steps: seq<Step>, doubleBuffering: bool)
    ensures Balanced(Replay(steps, doubleBuffering))
    ensures Replay(steps, doubleBuffering).flushes <= Replay(steps, doubleBuffering).frames + 1
    ensures Replay(steps, doubleBuffering).seen <= Replay(steps, doubleBuffering).flushes
  {
    if |steps| > 0 {
      Handshake(steps[..|steps| - 1], doubleBuffering);
      NextBalanced(Replay(steps[..|steps| - 1], doubleBuffering), steps[|steps| - 1], doubleBuffering);
    }
  }

  /** The statics of main.c together with the four effects' state. */
  class Demo {
    var effect: Byte
    var bits: bv32
    /** Whether the display driver double-buffers (the vsync wait is active). */
    const doubleBuffering: bool
    const metaballs: Metaballs.Effect
    const plasma: Plasma.Effect
    const rotozoom: Rotozoom.Effect
    const deform: Deform.Effect

    ghost predicate Valid()
      reads this, metaballs, plasma, plasma.Repr, rotozoom, deform, deform.Repr
    {
      && effect < EFFECTS
      && metaballs.Valid() && plasma.Valid() && rotozoom.Valid() && deform.Valid()
      && plasma.Repr !! deform.Repr
      && (effect == 1 ==> plasma.Ready())
      && (effect == 3 ==> deform.Ready())
    }

    /** The effect state at start-up, with effect 0 and, as demo_task does
        before its first frame, RENDER_FINISHED set. */
    constructor (metaballs: Metaballs.Effect, plasma: Plasma.Effect, rotozoom: Rotozoom.Effect,
                 deform: Deform.Effect, doubleBuffering: bool)
      requires metaballs.Valid() && plasma.Valid() && rotozoom.Valid() && deform.Valid()
      requires plasma.Repr !! deform.Repr
      ensures Valid() && effect == 0 && bits == RENDER_FINISHED
      ensures this.metaballs == metaballs && this.plasma == plasma
      ensures this.rotozoom == rotozoom && this.deform == deform
      ensures this.doubleBuffering == doubleBuffering
    {
      this.metaballs, this.plasma, this.rotozoom, this.deform := metaballs, plasma, rotozoom, deform;
      this.doubleBuffering := doubleBuffering;
      effect := 0;
      bits := RENDER_FINISHED;
    }

    /** One pass of switch_task: closes the outgoing effect when it is plasma
        or deform (the other two closes are commented out), moves to the next
        effect and runs its init and no other. `draws` are the rand() results
        metaballs_init would get, `uninit` what plasma's allocation holds. */
    method Switch(draws: nat -> nat, uninit: nat -> Byte)
      requires Valid()
      modifies this, metaballs.balls, plasma, rotozoom.sinlut, rotozoom.coslut, deform
      ensures Valid() && effect == NextEffect(old(effect)) && bits == old(bits)
      ensures old(effect) == 1 ==> !plasma.Ready()
      ensures old(effect) == 3 ==> !deform.Ready()
      ensures effect == 0 ==> metaballs.Settled()
      ensures effect == 0 ==> forall i :: 0 <= i < Metaballs.NUM_BALLS ==>
        metaballs.balls[i] == Metaballs.Spawn(draws, i, metaballs.width, metaballs.height)
      ensures effect == 0 ==> forall i :: Metaballs.NUM_BALLS <= i < Metaballs.POOL_SIZE ==>
        metaballs.balls[i] == old(metaballs.balls[i])
      ensures effect != 0 ==> metaballs.balls[..] == old(metaballs.balls[..])
      ensures effect == 1 ==> plasma.buffer[..] == Plasma.Initial(plasma.noise, uninit, plasma.width, plasma.height)
      ensures effect == 1 ==> forall i :: 0 <= i < Plasma.PALETTE_SIZE ==>
        plasma.palette[i] == Rgb(plasma.paletteRG(i).0, plasma.paletteRG(i).1, 64)
      ensures effect != 1 && old(effect) != 1 ==>
        plasma.buffer == old(plasma.buffer) && plasma.palette == old(plasma.palette)
      ensures effect == 2 ==> rotozoom.Tabulated()
      ensures effect != 2 ==> rotozoom.sinlut[..] == old(rotozoom.sinlut[..]) && rotozoom.coslut[..] == old(rotozoom.coslut[..])
      ensures rotozoom.angle == old(rotozoom.angle)
      ensures effect == 3 ==> deform.lut[..] == Deform.Table(deform.polar, deform.width, deform.height, deform.head.width, deform.head.height)
      ensures effect != 3 && old(effect) != 3 ==> deform.lut == old(deform.lut)
      ensures deform.frame == old(deform.frame)
    {
      if effect == 1 {
        plasma.Close();
      } else if effect == 3 {
        deform.Close();
      }

      effect := (effect + 1) % EFFECTS;

      if effect == 0 {
        metaballs.Init(draws);
      } else if effect == 1 {
        plasma.Init(uninit);
      } else if effect == 2 {
        rotozoom.Init();
      } else {
        deform.Init();
      }
    }

    /** One pass of flush_task. */
    method Flush() returns (flushed: bool)
      modifies this
      ensures (bits, flushed) == FlushPass(old(bits)) && effect == old(effect)
    {
      flushed := bits & RENDER_FINISHED != 0;
      if flushed {
        bits := bits & !RENDER_FINISHED;
        bits := bits | FLUSH_STARTED;
      }
    }

    /** wait_for_vsync. */
    method WaitForVsync() returns (seen: bool)
      modifies this
      ensures (bits, seen) == Vsync(old(bits), doubleBuffering) && effect == old(effect)
    {
      seen := doubleBuffering && bits & FLUSH_STARTED != 0;
      if seen {
        bits := bits & !FLUSH_STARTED;
      }
    }

    /** One pass of demo_task's loop: animate, vsync and render the active
        effect, then set RENDER_FINISHED. Returns the drawing calls and whether
        the vsync wait saw FLUSH_STARTED. */
    method Frame() returns (ops: seq<Draw>, seen: bool)
      requires Valid()
      modifies this, metaballs.balls, plasma.buffer, rotozoom, deform
      ensures Valid() && effect == old(effect)
      ensures seen == Vsync(old(bits), doubleBuffering).1
      ensures bits == Vsync(old(bits), doubleBuffering).0 | RENDER_FINISHED
      ensures effect == 0 ==> forall i :: 0 <= i < Metaballs.NUM_BALLS ==>
        metaballs.balls[i] == Metaballs.Move(old(metaballs.balls[i]), metaballs.width, metaballs.height)
      ensures effect == 0 ==> ops == Metaballs.Frame(metaballs.Field(), metaballs.width, metaballs.height)
      ensures effect == 1 ==> plasma.buffer[..] == Plasma.Animated(old(plasma.buffer[..]), plasma.width)
      ensures effect == 1 ==> ops == plasma.CurrentFrame()
      ensures effect == 2 ==> rotozoom.angle == Rotozoom.Turn(old(rotozoom.angle))
      ensures effect == 2 ==> ops == rotozoom.CurrentFrame()
      ensures effect == 3 ==> deform.frame == Deform.Advance(old(deform.frame))
      ensures effect == 3 ==> ops == deform.CurrentPicture()
      ensures effect == 0 ==> forall i :: Metaballs.NUM_BALLS <= i < Metaballs.POOL_SIZE ==>
        metaballs.balls[i] == old(metaballs.balls[i])
      ensures effect != 0 ==> metaballs.balls[..] == old(metaballs.balls[..])
      ensures plasma.buffer == old(plasma.buffer) && plasma.palette == old(plasma.palette)
      ensures effect != 1 && plasma.buffer != null ==> plasma.buffer[..] == old(plasma.buffer[..])
      ensures effect != 2 ==> rotozoom.angle == old(rotozoom.angle)
      ensures effect != 3 ==> deform.frame == old(deform.frame)
      ensures deform.lut == old(deform.lut)
    {
      if effect == 0 {
        metaballs.Animate();
        seen := WaitForVsync();
        ops := metaballs.Render();
      } else if effect == 1 {
        plasma.Animate();
        seen := WaitForVsync();
        ops := plasma.Render();
      } else if effect == 2 {
        rotozoom.Animate();
        seen := WaitForVsync();
        ops := rotozoom.Render();
      } else {
        deform.Animate();
        seen := WaitForVsync();
        ops := deform.Render();
      }
      bits := bits | RENDER_FINISHED;
    }
  }
}
