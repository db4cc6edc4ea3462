/** Arithmetic shared by both revisions of the controller: 2-D vectors over
    exact reals (an idealisation of JavaScript doubles), `Math.round`, the
    per-axis velocity damping rule and the capped per-tick ramp. */
module Physics {

  datatype Vec = Vec(x: real, y: real)

  /** The key of a velocity component, `"x"` or `"y"` in the source. */
  datatype Axis = X | Y

  const Origin: Vec := Vec(0.0, 0.0)

  /** Decay multiplier applied to a velocity component each tick (`game.velocity`). */
  const Friction: real := 0.93

  /** Amount added to the ramp (acceleration or elapsed time) each tick. */
  const RampStep: real := 0.01

  function Abs(r: real): real {
    if r < 0.0 then -r else r
  }

  function Min(a: real, b: real): real {
    if a <= b then a else b
  }

  function Get(v: Vec, a: Axis): real {
    match a
    case X => v.x
    case Y => v.y
  }

  /** `v` with the component `a` replaced by `r`; the other component is kept. */
  function With(v: Vec, a: Axis, r: real): (w: Vec)
    ensures Get(w, a) == r
    ensures forall b: Axis :: b != a ==> Get(w, b) == Get(v, b)
  {
    match a
    case X => v.(x := r)
    case Y => v.(y := r)
  }

  /** Component-wise sum, as `move` adds a velocity to a position. */
  function Add(p: Vec, d: Vec): (q: Vec)
    ensures forall a: Axis :: Get(q, a) == Get(p, a) + Get(d, a)
  {
    Vec(p.x + d.x, p.y + d.y)
  }

  /** `Math.round`: the nearest integer, a tie going towards +infinity. */
  function JsRound(x: real): (n: int)
    ensures n as real - 0.5 <= x < n as real + 0.5
  {
    (x + 0.5).Floor
  }

  /** A velocity component after one damping tick: it snaps to zero when it
      rounds to zero at two decimal places, and otherwise decays by
      `Friction`. */
  function Damp(v: real): (r: real)
    ensures r == 0.0 || r == Friction * v
    ensures r == 0.0 <==> -0.005 <= v < 0.005
    ensures 0.0 <= v ==> 0.0 <= r <= v
    ensures v <= 0.0 ==> v <= r <= 0.0
    ensures Abs(r) <= Abs(v)
  {
    if JsRound(v * 100.0) != 0 then v * Friction else 0.0
  }

  /** `v` after `n` damping ticks with no new thrust. */
  function DampTicks(v: real, n: nat): real {
    if n == 0 then v else Damp(DampTicks(v, n - 1))
  }

  /** The least amount by which a component that does not snap to zero
      shrinks in one tick: 7% of the smallest magnitude that survives. */
  const MinDecay: real := 0.00035

  /** Until it comes to rest, damping takes at least `MinDecay` off the
      magnitude every tick. */
  lemma {:induction false} DampDecays(v: real, n: nat)
    ensures DampTicks(v, n) == 0.0 || Abs(DampTicks(v, n)) <= Abs(v) - MinDecay * n as real
  {
    if n > 0 {
      DampDecays(v, n - 1);
      var d := DampTicks(v, n - 1);
      assert DampTicks(v, n) == Damp(d);
      if Damp(d) != 0.0 {
        assert d != 0.0;
        assert Abs(Damp(d)) <= Abs(d) - MinDecay;
      }
    }
  }

  /** Enough ticks for any component to come to rest exactly. */
  function SettleTicks(v: real): (n: nat)
    ensures Abs(v) < MinDecay * n as real
  {
    (Abs(v) / MinDecay).Floor + 1
  }

  /** Every velocity component reaches exactly zero after `SettleTicks(v)`
      damping ticks, and stays there. */
  lemma DampSettles(v: real, n: nat)
    requires n >= SettleTicks(v)
    ensures DampTicks(v, n) == 0.0
  {
    var n0 := SettleTicks(v);
    DampDecays(v, n0);
    StaysAtRest(v, n0, n);
  }

  /** Once a component is zero, further damping keeps it zero. */
  lemma {:induction false} StaysAtRest(v: real, m: nat, n: nat)
    requires m <= n
    requires DampTicks(v, m) == 0.0
    ensures DampTicks(v, n) == 0.0
  {
    if m < n {
      StaysAtRest(v, m, n - 1);
    }
  }

  /** `x` capped from above at `cap`: the clamp `if (t > speed) t = speed`. */
  function Clamp(x: real, cap: real): (r: real)
    ensures r <= cap
    ensures r == x || r == cap
    ensures x <= cap ==> r == x
  {
    if x > cap then cap else x
  }

  /** The ramp value after `n` ticks from 0: each tick adds `RampStep` and
      caps at `cap`. */
  function RampAfter(n: nat, cap: real): real {
    if n == 0 then 0.0 else Clamp(RampAfter(n - 1, cap) + RampStep, cap)
  }

  /** Closed form of the ramp: it climbs linearly and then holds at the cap. */
  lemma {:induction false} RampClosedForm(n: nat, cap: real)
    requires 0.0 <= cap
    ensures RampAfter(n, cap) == Min(RampStep * n as real, cap)
    ensures 0.0 <= RampAfter(n, cap) <= cap
  {
    if n > 0 {
      RampClosedForm(n - 1, cap);
    }
  }
}
