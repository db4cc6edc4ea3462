/** Input handling shared by both revisions: keybinds, the key-chord test,
    the eight-way direction switch with its priority order, the velocity
    increment each direction applies, and facing from the pointer angle. */
module Controls {
  import opened Optional
  import opened Physics

  type Key = string

  /** A keybind entry; `None` is an action that was never bound (`undefined`),
      which no key press can match. */
  type Binding = Option<Key>

  datatype Keybinds = Keybinds(up: Binding, down: Binding, left: Binding, right: Binding, shoot: Binding)

  /** The `{}` keybinds object: nothing is bound. */
  const Unbound: Keybinds := Keybinds(None, None, None, None, None)

  /** `keypresses.has(b)`: the key set only ever holds real key names. */
  predicate Held(b: Binding, pressed: set<Key>) {
    b.Some? && b.value in pressed
  }

  /** `hasKeypress(...keys)` / `input(...keys)`: scans the requested keys in
      order and stops at the first one that is not held. */
  function HasKeypress(keys: seq<Binding>, pressed: set<Key>): (r: bool)
    ensures r <==> forall i :: 0 <= i < |keys| ==> Held(keys[i], pressed)
    ensures |keys| == 0 ==> r
  {
    if |keys| == 0 then true
    else if !Held(keys[0], pressed) then false
    else HasKeypress(keys[1..], pressed)
  }

  /** The branches of the movement switch, in the order they are tested. */
  datatype Dir = UpRight | DownRight | UpLeft | DownLeft | Up | Down | Left | Right | Idle

  /** Position of a branch in the switch; the default branch comes last. */
  function Rank(d: Dir): nat {
    match d
    case UpRight => 0
    case DownRight => 1
    case UpLeft => 2
    case DownLeft => 3
    case Up => 4
    case Down => 5
    case Left => 6
    case Right => 7
    case Idle => 8
  }

  predicate IsDiagonal(d: Dir) {
    Rank(d) < 4
  }

  /** The keys a branch tests; the default branch tests none. */
  function Chord(b: Keybinds, d: Dir): seq<Binding> {
    match d
    case UpRight => [b.up, b.right]
    case DownRight => [b.down, b.right]
    case UpLeft => [b.up, b.left]
    case DownLeft => [b.down, b.left]
    case Up => [b.up]
    case Down => [b.down]
    case Left => [b.left]
    case Right => [b.right]
    case Idle => []
  }

  /** A branch's case expression is true. */
  predicate Fires(b: Keybinds, pressed: set<Key>, d: Dir) {
    HasKeypress(Chord(b, d), pressed)
  }

  /** The `switch (true)` over direction chords: the first true case wins. */
  function Resolve(b: Keybinds, pressed: set<Key>): (d: Dir)
    ensures Fires(b, pressed, d)
    ensures forall e: Dir :: Rank(e) < Rank(d) ==> !Fires(b, pressed, e)
  {
    if HasKeypress([b.up, b.right], pressed) then UpRight
    else if HasKeypress([b.down, b.right], pressed) then DownRight
    else if HasKeypress([b.up, b.left], pressed) then UpLeft
    else if HasKeypress([b.down, b.left], pressed) then DownLeft
    else if HasKeypress([b.up], pressed) then Up
    else if HasKeypress([b.down], pressed) then Down
    else if HasKeypress([b.left], pressed) then Left
    else if HasKeypress([b.right], pressed) then Right
    else Idle
  }

  /** Exactly one branch is taken: the earliest one whose chord is held. */
  lemma ResolveIsFirstMatch(b: Keybinds, pressed: set<Key>, d: Dir)
    ensures Resolve(b, pressed) == d <==>
      Fires(b, pressed, d) && forall e: Dir :: Rank(e) < Rank(d) ==> !Fires(b, pressed, e)
  {
    var r := Resolve(b, pressed);
    if Fires(b, pressed, d) && forall e: Dir :: Rank(e) < Rank(d) ==> !Fires(b, pressed, e) {
      if Rank(r) == Rank(d) {
        RankInjective(r, d);
      }
    }
  }

  lemma RankInjective(d: Dir, e: Dir)
    requires Rank(d) == Rank(e)
    ensures d == e
  {
  }

  /** Diagonals win over cardinals: if any diagonal chord is held, a
      diagonal branch is taken. */
  lemma DiagonalsFirst(b: Keybinds, pressed: set<Key>, e: Dir)
    requires IsDiagonal(e) && Fires(b, pressed, e)
    ensures IsDiagonal(Resolve(b, pressed))
  {
  }

  /** The default branch is taken exactly when no direction key is held. */
  lemma IdleIffNoDirectionHeld(b: Keybinds, pressed: set<Key>)
    ensures Resolve(b, pressed) == Idle <==>
      !Held(b.up, pressed) && !Held(b.down, pressed) && !Held(b.left, pressed) && !Held(b.right, pressed)
  {
    if Held(b.up, pressed) {
      assert Fires(b, pressed, Up);
    } else if Held(b.down, pressed) {
      assert Fires(b, pressed, Down);
    } else if Held(b.left, pressed) {
      assert Fires(b, pressed, Left);
    } else if Held(b.right, pressed) {
      assert Fires(b, pressed, Right);
    }
  }

  /** With nothing bound, no direction branch can fire, whatever is held. */
  lemma UnboundIsIdle(pressed: set<Key>)
    ensures Resolve(Unbound, pressed) == Idle
  {
    IdleIffNoDirectionHeld(Unbound, pressed);
  }

  /** The usual WASD layout with no shoot key. */
  const Wasd: Keybinds := Keybinds(Some("w"), Some("s"), Some("a"), Some("d"), None)

  /** Up, right and down together resolve to up-right; up and down together
      resolve to up. */
  lemma PriorityExamples()
    ensures Resolve(Wasd, {"w", "d", "s"}) == UpRight
    ensures Resolve(Wasd, {"w", "s"}) == Up
    ensures Resolve(Wasd, {"a", "d"}) == Left
    ensures Resolve(Wasd, {"s", "a", "d"}) == DownRight
  {
    assert Fires(Wasd, {"w", "d", "s"}, UpRight);
    assert !Fires(Wasd, {"w", "s"}, UpRight);
    assert Fires(Wasd, {"w", "s"}, Up);
    assert Fires(Wasd, {"a", "d"}, Left);
    assert Fires(Wasd, {"s", "a", "d"}, DownRight);
  }

  /** Screen-space unit step of a branch (y grows downwards). */
  function Dx(d: Dir): int {
    match d
    case UpRight => 1
    case DownRight => 1
    case UpLeft => -1
    case DownLeft => -1
    case Right => 1
    case Left => -1
    case _ => 0
  }

  function Dy(d: Dir): int {
    match d
    case UpRight => -1
    case DownRight => 1
    case UpLeft => -1
    case DownLeft => 1
    case Up => -1
    case Down => 1
    case _ => 0
  }

  /** The velocity update a branch performs with increment `a`. */
  function Steer(v: Vec, d: Dir, a: real): (w: Vec)
    ensures w.x == v.x + Dx(d) as real * a
    ensures w.y == v.y + Dy(d) as real * a
    ensures w.x - v.x == 0.0 || w.x - v.x == a || w.x - v.x == -a
    ensures w.y - v.y == 0.0 || w.y - v.y == a || w.y - v.y == -a
    ensures d == Idle ==> w == v
    ensures a != 0.0 && d != Idle ==> w != v
  {
    match d
    case UpRight => Vec(v.x + a, v.y - a)
    case DownRight => Vec(v.x + a, v.y + a)
    case UpLeft => Vec(v.x - a, v.y - a)
    case DownLeft => Vec(v.x - a, v.y + a)
    case Up => v.(y := v.y - a)
    case Down => v.(y := v.y + a)
    case Left => v.(x := v.x - a)
    case Right => v.(x := v.x + a)
    case Idle => v
  }

  /** The sprite's facing, the `view-direction` / `view` attribute. */
  datatype View = FaceRight | FaceLeft

  /** Facing from the pointer angle in degrees. */
  function Facing(rotation: real): (v: View)
    ensures v == FaceRight <==> -90.0 < rotation < 90.0
  {
    if rotation < 90.0 && rotation > -90.0 then FaceRight else FaceLeft
  }

  /** Facing is symmetric about the horizontal axis: aiming up by some angle
      or down by the same angle faces the same way. */
  lemma FacingMirror(rotation: real)
    ensures Facing(-rotation) == Facing(rotation)
  {
  }
}
