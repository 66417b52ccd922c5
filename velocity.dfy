/**
 * The pointer-driven angular velocities (js/scriptanimationlogo.js:72-113).
 * `mousemove` sets VY and VZ from the pointer's offset from the centre;
 * `mouseout` starts `slowDownSpin`, whose ticks divide VY and VZ by 1.3 and
 * clamp them to sign·MIN_SPEED, and which reschedules itself (every 200 ms)
 * until an axis sits at +MIN_SPEED or the pointer is back. VX is never changed.
 */
module Velocity {
  import opened Camera

  const MIN_SPEED: real := 0.0007
  const MOUSE_SPEED: real := 0.05
  /** The divisor of one `slowDownSpin` tick. */
  const DECAY: real := 1.3

  /** `Math.sign` on reals. */
  function Sign(v: real): real {
    if v > 0.0 then 1.0 else if v < 0.0 then -1.0 else 0.0
  }

  function Abs(v: real): real {
    if v < 0.0 then -v else v
  }

  function Max(a: real, b: real): real {
    if a < b then b else a
  }

  /** One axis of one `slowDownSpin` tick. The velocity keeps its direction, its
      magnitude becomes |v|/1.3 but never less than MIN_SPEED, and only a still
      axis stays still; above MIN_SPEED the magnitude strictly shrinks. */
  function Decay(v: real): (r: real)
    ensures Sign(r) == Sign(v)
    ensures r == 0.0 <==> v == 0.0
    ensures v != 0.0 ==> Abs(r) == Max(Abs(v) / DECAY, MIN_SPEED)
    ensures v != 0.0 ==> Abs(r) >= MIN_SPEED
    ensures Abs(v) > MIN_SPEED ==> Abs(r) < Abs(v)
  {
    var d := v / DECAY;
    if Abs(d) <= MIN_SPEED then Sign(d) * MIN_SPEED else d
  }

  /** An axis at rest (0 or ±MIN_SPEED) is left where it is by a tick. */
  lemma DecayFixesRest(v: real)
    requires v == 0.0 || Abs(v) == MIN_SPEED
    ensures Decay(v) == v
  {
  }

  /** The velocity of one axis after k ticks. */
  function DecayN(v: real, k: nat): real {
    if k == 0 then v else Decay(DecayN(v, k - 1))
  }

  /** k ticks keep the direction of an axis. */
  lemma {:induction false} DecayNKeepsSign(v: real, k: nat)
    ensures Sign(DecayN(v, k)) == Sign(v)
  {
    if k > 0 {
      DecayNKeepsSign(v, k - 1);
    }
  }

  /** The first tick can be taken first: k+1 ticks from v are k ticks from Decay(v). */
  lemma {:induction false} DecayNShift(v: real, k: nat)
    ensures DecayN(v, k + 1) == DecayN(Decay(v), k)
  {
    if k > 0 {
      DecayNShift(v, k - 1);
    }
  }

  /** A moving axis no faster than MIN_SPEED·(1 + 0.3k) is clamped within k+1 ticks. */
  lemma {:induction false} SettlesWithin(v: real, k: nat)
    requires v != 0.0 && Abs(v) <= MIN_SPEED * (1.0 + 0.3 * k as real)
    ensures Abs(DecayN(v, k + 1)) == MIN_SPEED
    decreases k
  {
    DecayNShift(v, k);
    var w := Decay(v);
    if k == 0 {
      assert Abs(v) / DECAY <= MIN_SPEED;
    } else {
      var m := MIN_SPEED * (1.0 + 0.3 * (k - 1) as real);
      assert MIN_SPEED * (1.0 + 0.3 * k as real) / DECAY <= m;
      assert Abs(w) <= m;
      SettlesWithin(w, k - 1);
      DecayNShift(w, k - 1);
    }
  }

  /** Once clamped, an axis stays clamped on every further tick. */
  lemma {:induction false} StaysSettled(v: real, k: nat, j: nat)
    requires k <= j && (DecayN(v, k) == 0.0 || Abs(DecayN(v, k)) == MIN_SPEED)
    ensures DecayN(v, j) == DecayN(v, k)
  {
    if k < j {
      StaysSettled(v, k, j - 1);
      DecayFixesRest(DecayN(v, k));
    }
  }

  /** A tick count after which an axis starting at v is surely clamped. */
  function SettleTicks(v: real): (k: nat)
    ensures k >= 1
  {
    (Abs(v) / MIN_SPEED * 4.0).Floor as nat + 1
  }

  /** From any velocity, finitely many ticks bring the axis to sign(v)·MIN_SPEED
      (or keep it at 0), and it stays there. */
  lemma DecaySettles(v: real, j: nat)
    requires j >= SettleTicks(v)
    ensures DecayN(v, j) == Sign(v) * MIN_SPEED
  {
    var k := SettleTicks(v) - 1;
    DecayNKeepsSign(v, k + 1);
    if v != 0.0 {
      var q := Abs(v) / MIN_SPEED;
      assert k as real > q * 4.0 - 1.0;
      assert q * MIN_SPEED == Abs(v);
      assert Abs(v) <= MIN_SPEED * (1.0 + 0.3 * k as real);
      SettlesWithin(v, k);
    } else {
      assert Sign(DecayN(v, k + 1)) == 0.0;
    }
    StaysSettled(v, k + 1, j);
  }

  /** The controller's state: the three velocities, the last pointer offset from
      the centre, and whether the pointer is over the canvas. */
  datatype SpinState = SpinState(vx: real, vy: real, vz: real, mouseX: real, mouseY: real, moving: bool)

  /** The state at script start: every axis at the idle speed. */
  const INITIAL: SpinState := SpinState(MIN_SPEED, MIN_SPEED, MIN_SPEED, 0.0, 0.0, false)

  /** The state after `mousemove` at (offsetX, offsetY) on a canvas of the given size. */
  function Moved(s: SpinState, offsetX: real, offsetY: real, width: real, height: real): SpinState
    requires width > 0.0 && height > 0.0
  {
    var mx := offsetX - width / 2.0;
    var my := offsetY - height / 2.0;
    s.(moving := true, mouseX := mx, mouseY := my,
       vy := MOUSE_SPEED * mx / width, vz := MOUSE_SPEED * my / height)
  }

  /** The pointer steers: VY takes the side of the centre the pointer is on
      horizontally, VZ vertically, each in proportion to the offset; VX is untouched. */
  lemma MoveSteers(s: SpinState, offsetX: real, offsetY: real, width: real, height: real)
    requires width > 0.0 && height > 0.0
    ensures var m := Moved(s, offsetX, offsetY, width, height);
      m.moving && m.vx == s.vx &&
      Sign(m.vy) == Sign(offsetX - width / 2.0) && Sign(m.vz) == Sign(offsetY - height / 2.0) &&
      m.vy * width == MOUSE_SPEED * (offsetX - width / 2.0) &&
      m.vz * height == MOUSE_SPEED * (offsetY - height / 2.0)
  {
    var m := Moved(s, offsetX, offsetY, width, height);
    QuotientSign(MOUSE_SPEED * (offsetX - width / 2.0), width);
    QuotientSign(MOUSE_SPEED * (offsetY - height / 2.0), height);
  }

  /** Dividing by a positive number keeps the sign. */
  lemma QuotientSign(a: real, b: real)
    requires b > 0.0
    ensures Sign(a / b) == Sign(a) && (a / b) * b == a
  {
    if a > 0.0 {
      assert a / b > 0.0;
    } else if a < 0.0 {
      assert (-a) / b > 0.0;
      assert a / b == -((-a) / b);
    }
  }

  /** One `slowDownSpin` tick on the state: nothing while the pointer is over
      the canvas, otherwise VZ and VY decay. */
  function Tick(s: SpinState): SpinState {
    if s.moving then s else s.(vz := Decay(s.vz), vy := Decay(s.vy))
  }

  /** Whether the tick run on s schedules another one. */
  predicate Reschedules(s: SpinState) {
    !s.moving && Decay(s.vz) != MIN_SPEED && Decay(s.vy) != MIN_SPEED
  }

  /** The state after k ticks. */
  function After(s: SpinState, k: nat): SpinState {
    if k == 0 then s else Tick(After(s, k - 1))
  }

  /** While the pointer stays away, k ticks decay each of VY and VZ k times and
      change nothing else. */
  lemma {:induction false} AfterWhileAway(s: SpinState, k: nat)
    requires !s.moving
    ensures After(s, k) == s.(vy := DecayN(s.vy, k), vz := DecayN(s.vz, k))
  {
    if k > 0 {
      AfterWhileAway(s, k - 1);
    }
  }

  /** A chain with an axis turning in the + direction ends: some tick clamps an
      axis to exactly +MIN_SPEED and does not reschedule. */
  lemma ChainEndsWhenAnAxisPositive(s: SpinState)
    requires !s.moving && (s.vy > 0.0 || s.vz > 0.0)
    ensures exists k: nat :: !Reschedules(After(s, k))
  {
    var v := if s.vy > 0.0 then s.vy else s.vz;
    var k := SettleTicks(v) - 1;
    DecaySettles(v, k + 1);
    AfterWhileAway(s, k);
    assert !Reschedules(After(s, k));
  }

  /** With both axes at or below zero no tick ever reaches +MIN_SPEED: the chain
      reschedules forever, re-clamping the axes at -MIN_SPEED or 0. */
  lemma ChainNeverEndsWhenNonPositive(s: SpinState, k: nat)
    requires !s.moving && s.vy <= 0.0 && s.vz <= 0.0
    ensures Reschedules(After(s, k))
  {
    AfterWhileAway(s, k);
    DecayNKeepsSign(s.vy, k + 1);
    DecayNKeepsSign(s.vz, k + 1);
  }

  /** The chain stops as soon as EITHER axis lands on +MIN_SPEED, so the other
      axis can be left turning fast: with VY just above MIN_SPEED and VZ at
      -0.02, the one tick brings VY to +MIN_SPEED, ends the chain, and leaves
      VZ at -0.02/1.3, more than 20 times MIN_SPEED in magnitude, until the
      pointer next moves. */
  lemma ChainStopsWithOtherAxisFast(s: SpinState)
    requires s == SpinState(MIN_SPEED, 0.0008, -0.02, 0.0, 0.0, false)
    ensures !Reschedules(s)
    ensures Tick(s).vy == MIN_SPEED && Tick(s).vz == -0.02 / DECAY
    ensures Abs(Tick(s).vz) > 20.0 * MIN_SPEED
  {
  }

  /** The pointer enters half a canvas plus 50 units right of the left edge,
      level with the centre, and leaves: VY is positive and VZ is 0; the ticks
      then bring VY to +MIN_SPEED, leave VZ at 0 and end. */
  lemma RightOfCentreThenLeave(width: real, height: real)
    requires width > 0.0 && height > 0.0
    ensures var m := Moved(INITIAL, width / 2.0 + 50.0, height / 2.0, width, height);
      m.vy > 0.0 && m.vz == 0.0 &&
      exists k: nat :: After(m.(moving := false), k).vy == MIN_SPEED &&
                       After(m.(moving := false), k).vz == 0.0 &&
                       !Reschedules(After(m.(moving := false), k))
  {
    var m := Moved(INITIAL, width / 2.0 + 50.0, height / 2.0, width, height);
    MoveSteers(INITIAL, width / 2.0 + 50.0, height / 2.0, width, height);
    var s := m.(moving := false);
    var k := SettleTicks(s.vy);
    DecaySettles(s.vy, k);
    DecaySettles(s.vy, k + 1);
    DecaySettles(s.vz, k);
    DecaySettles(s.vz, k + 1);
    AfterWhileAway(s, k);
    assert After(s, k).vy == MIN_SPEED;
  }

  /** The script-wide velocities and pointer state. */
  class Spin {
    var vx: real
    var vy: real
    var vz: real
    var mouseX: real
    var mouseY: real
    var mouseMoving: bool

    function State(): SpinState
      reads this
    {
      SpinState(vx, vy, vz, mouseX, mouseY, mouseMoving)
    }

    constructor ()
      ensures State() == INITIAL
    {
      vx, vy, vz := MIN_SPEED, MIN_SPEED, MIN_SPEED;
      mouseX, mouseY := 0.0, 0.0;
      mouseMoving := false;
    }

    /** The `mousemove` handler; the canvas size is the current one. */
    method MouseMove(stage: Stage, offsetX: real, offsetY: real)
      requires stage.Valid()
      modifies this
      ensures State() == Moved(old(State()), offsetX, offsetY, stage.width, stage.height)
    {
      mouseMoving := true;
      mouseX := offsetX - stage.width / 2.0;
      mouseY := offsetY - stage.height / 2.0;
      vy := MOUSE_SPEED * mouseX / stage.width;
      vz := MOUSE_SPEED * mouseY / stage.height;
    }

    /** One `slowDownSpin` tick; the result says whether it schedules the next. */
    method SlowDownSpin() returns (reschedule: bool)
      modifies this
      ensures State() == Tick(old(State()))
      ensures reschedule == Reschedules(old(State()))
      ensures reschedule <==> !mouseMoving && vz != MIN_SPEED && vy != MIN_SPEED
    {
      if mouseMoving {
        return false;
      }
      vz := vz / DECAY;
      vy := vy / DECAY;
      if Abs(vz) <= MIN_SPEED {
        vz := Sign(vz) * MIN_SPEED;
      }
      if Abs(vy) <= MIN_SPEED {
        vy := Sign(vy) * MIN_SPEED;
      }
      if vz == MIN_SPEED || vy == MIN_SPEED {
        return false;
      }
      return true;
    }

    /** The `mouseout` handler and the timer chain it starts: the first tick runs
        at once, then each tick that reschedules is followed by another, for at
        most `timerBudget` timer ticks. `ticks` counts the ticks run; `pending`
        says a further tick is still scheduled. */
    method MouseOut(timerBudget: nat) returns (ticks: nat, pending: bool)
      modifies this
      ensures 1 <= ticks <= timerBudget + 1
      ensures State() == After(old(State()).(moving := false), ticks)
      ensures forall k :: 0 <= k < ticks - 1 ==> Reschedules(After(old(State()).(moving := false), k))
      ensures pending == Reschedules(After(old(State()).(moving := false), ticks - 1))
      ensures pending ==> ticks == timerBudget + 1
    {
      mouseMoving := false;
      ghost var start := State();
      pending := SlowDownSpin();
      ticks := 1;
      while pending && ticks <= timerBudget
        invariant 1 <= ticks <= timerBudget + 1
        invariant State() == After(start, ticks)
        invariant forall k :: 0 <= k < ticks - 1 ==> Reschedules(After(start, k))
        invariant pending == Reschedules(After(start, ticks - 1))
      {
        pending := SlowDownSpin();
        ticks := ticks + 1;
      }
    }
  }
}
