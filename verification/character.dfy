/** The second revision of the character controller (`script.js`): an
    entity built from an options object with falsy `hp` and `speed`
    defaulted to 0, whose
    `onUpdate` ramps an elapsed-time increment, steers in eight directions,
    damps both velocity components and then moves, in that order. */
module CharacterController {
  import opened Optional
  import opened Physics
  import opened Controls

  /** The `options` object a character is built from; each field may be
      missing. */
  datatype Options = Options(hp: Option<real>, speed: Option<real>, keybinds: Option<Keybinds>, position: Option<Vec>)

  datatype Character = Character(
    position: Vec,
    velocity: Vec,
    hp: real,
    speed: real,
    elapsedTime: real,
    keybinds: Keybinds,
    keypresses: set<Key>,
    hasCooldown: bool,
    isMoving: bool,
    view: Option<View>)   // the `view` attribute; unset until the first update

  /** `options?.field ? options.field : 0` for a numeric field: a missing
      field and a zero both give 0. */
  function NumberOr0(f: Option<real>): real {
    if f.Some? && f.value != 0.0 then f.value else 0.0
  }

  /** The elapsed-time ramp stays within `[0, speed]`. */
  predicate ElapsedOk(c: Character) {
    0.0 <= c.elapsedTime <= c.speed
  }

  /** The `Entity` and `Character` constructors: numeric options default to
      0, keybinds to `{}`, the position to the origin; the character starts
      at rest with nothing held. */
  function NewCharacter(options: Option<Options>): (c: Character)
    ensures c.hp == (if options.Some? && options.value.hp.Some? then options.value.hp.value else 0.0)
    ensures c.speed == (if options.Some? && options.value.speed.Some? then options.value.speed.value else 0.0)
    ensures c.keybinds == (if options.Some? && options.value.keybinds.Some? then options.value.keybinds.value else Unbound)
    ensures c.position == (if options.Some? && options.value.position.Some? then options.value.position.value else Origin)
    ensures c.velocity == Origin && c.elapsedTime == 0.0
    ensures c.keypresses == {} && !c.hasCooldown && !c.isMoving && c.view == None
    ensures 0.0 <= c.speed ==> ElapsedOk(c)
  {
    var hp := if options.Some? then NumberOr0(options.value.hp) else 0.0;
    var speed := if options.Some? then NumberOr0(options.value.speed) else 0.0;
    var keybinds := if options.Some? && options.value.keybinds.Some? then options.value.keybinds.value else Unbound;
    var position := if options.Some? && options.value.position.Some? then options.value.position.value else Origin;
    Character(position, Origin, hp, speed, 0.0, keybinds, {}, false, false, None)
  }

  /** `render(axis)`: damps one velocity component and touches nothing else. */
  function Render(c: Character, axis: Axis): (r: Character)
    ensures r == c.(velocity := With(c.velocity, axis, Get(r.velocity, axis)))
    ensures Get(r.velocity, axis) == 0.0 || Get(r.velocity, axis) == Friction * Get(c.velocity, axis)
    ensures Get(r.velocity, axis) == 0.0 <==> -0.005 <= Get(c.velocity, axis) < 0.005
    ensures Abs(Get(r.velocity, axis)) <= Abs(Get(c.velocity, axis))
    ensures 0.0 <= Get(c.velocity, axis) ==> 0.0 <= Get(r.velocity, axis)
    ensures Get(c.velocity, axis) <= 0.0 ==> Get(r.velocity, axis) <= 0.0
  {
    c.(velocity := With(c.velocity, axis, Damp(Get(c.velocity, axis))))
  }

  /** `input(...keys)`: every requested key is held; a missing keybind is
      never held, and asking for no keys at all is vacuously true. */
  function Input(c: Character, keys: seq<Binding>): (r: bool)
    ensures r <==> forall i :: 0 <= i < |keys| ==> keys[i].Some? && keys[i].value in c.keypresses
    ensures |keys| == 0 ==> r
  {
    HasKeypress(keys, c.keypresses)
  }

  /** `move()`: the position advances by the velocity; nothing else changes. */
  function Move(c: Character): (r: Character)
    ensures r == c.(position := r.position)
    ensures forall a: Axis :: Get(r.position, a) - Get(c.position, a) == Get(c.velocity, a)
  {
    c.(position := Add(c.position, c.velocity))
  }

  /** The velocity the direction switch leaves before damping: the
      increment is the elapsed time after this tick's 0.01. */
  function Thrust(c: Character): Vec {
    Steer(c.velocity, Resolve(c.keybinds, c.keypresses), c.elapsedTime + RampStep)
  }

  /** `onUpdate()` with the pointer at `rotation` degrees: increment, facing,
      direction switch, damping of x then y, move, and the clamp of the
      elapsed time, in that order. */
  function OnUpdate(c: Character, rotation: real): (r: Character)
    // direction switch
    ensures r.isMoving <==> Resolve(c.keybinds, c.keypresses) != Idle
    ensures ElapsedOk(c) ==> Abs(Thrust(c).x - c.velocity.x) <= c.speed + RampStep
    ensures ElapsedOk(c) ==> Abs(Thrust(c).y - c.velocity.y) <= c.speed + RampStep
    // damping comes after the thrust, and the move after the damping
    ensures r.velocity == Vec(Damp(Thrust(c).x), Damp(Thrust(c).y))
    ensures r.position == Add(c.position, r.velocity)
    ensures !r.isMoving ==> r.velocity == Vec(Damp(c.velocity.x), Damp(c.velocity.y))
    ensures !r.isMoving ==> Abs(r.velocity.x) <= Abs(c.velocity.x) && Abs(r.velocity.y) <= Abs(c.velocity.y)
    // elapsed-time ramp
    ensures r.elapsedTime <= c.speed
    ensures r.elapsedTime == Clamp(c.elapsedTime + RampStep, c.speed)
    ensures ElapsedOk(c) ==> ElapsedOk(r) && c.elapsedTime <= r.elapsedTime
    // facing, and nothing else changes
    ensures r.view == Some(Facing(rotation))
    ensures r.hp == c.hp && r.speed == c.speed && r.keybinds == c.keybinds
    ensures r.keypresses == c.keypresses && r.hasCooldown == c.hasCooldown
  {
    var c1 := c.(isMoving := true, elapsedTime := c.elapsedTime + RampStep);
    var c2 := c1.(view := Some(Facing(rotation)));
    var d := Resolve(c2.keybinds, c2.keypresses);
    var c3 := c2.(velocity := Steer(c2.velocity, d, c2.elapsedTime), isMoving := d != Idle);
    var c4 := Render(Render(c3, X), Y);
    var c5 := Move(c4);
    c5.(elapsedTime := Clamp(c5.elapsedTime, c5.speed))
  }

  /** The clamp comes after the increment is used: once the ramp is at
      `speed`, every tick that moves pushes by `speed + 0.01`, never by
      `speed` itself. */
  lemma IncrementOvershoots(c: Character, rotation: real)
    requires c.elapsedTime == c.speed && Resolve(c.keybinds, c.keypresses) == Right
    ensures Thrust(c).x - c.velocity.x == c.speed + RampStep
    ensures OnUpdate(c, rotation).elapsedTime == c.speed
  {
  }

  /** What can happen to a character between frames: the key listeners and
      the 60 Hz update. */
  datatype Event =
    | KeyDown(key: Key)
    | KeyUp(key: Key)
    | Update(rotation: real)

  function Handle(c: Character, e: Event): Character {
    match e
    case KeyDown(k) => c.(keypresses := c.keypresses + {k})
    case KeyUp(k) => c.(keypresses := c.keypresses - {k})
    case Update(r) => OnUpdate(c, r)
  }

  function Run(c: Character, events: seq<Event>): Character
    decreases |events|
  {
    if |events| == 0 then c else Run(Handle(c, events[0]), events[1..])
  }

  function CountUpdates(events: seq<Event>): nat {
    if |events| == 0 then 0 else (if events[0].Update? then 1 else 0) + CountUpdates(events[1..])
  }

  /** Whatever happens, the elapsed time stays within `[0, speed]`. */
  lemma {:induction false} ElapsedStaysInBounds(c: Character, events: seq<Event>)
    requires ElapsedOk(c)
    ensures ElapsedOk(Run(c, events)) && Run(c, events).speed == c.speed
    decreases |events|
  {
    if |events| > 0 {
      ElapsedStaysInBounds(Handle(c, events[0]), events[1..]);
    }
  }

  /** The elapsed time only moves on updates, by the ramp. */
  lemma {:induction false} ElapsedFollowsUpdates(c: Character, k: nat, events: seq<Event>)
    requires c.elapsedTime == RampAfter(k, c.speed)
    ensures Run(c, events).elapsedTime == RampAfter(k + CountUpdates(events), c.speed)
    ensures Run(c, events).speed == c.speed
    decreases |events|
  {
    if |events| > 0 {
      var c1 := Handle(c, events[0]);
      var k1 := if events[0].Update? then k + 1 else k;
      assert c1.elapsedTime == RampAfter(k1, c.speed) && c1.speed == c.speed;
      ElapsedFollowsUpdates(c1, k1, events[1..]);
    }
  }

  /** From a new character with a non-negative speed, after `n` updates the
      elapsed time is `min(n / 100, speed)`. */
  lemma ElapsedSchedule(options: Option<Options>, events: seq<Event>)
    requires 0.0 <= NewCharacter(options).speed
    ensures Run(NewCharacter(options), events).elapsedTime
         == Min(RampStep * CountUpdates(events) as real, NewCharacter(options).speed)
  {
    var c := NewCharacter(options);
    assert c.elapsedTime == RampAfter(0, c.speed);
    ElapsedFollowsUpdates(c, 0, events);
    RampClosedForm(CountUpdates(events), c.speed);
    assert Run(c, events).elapsedTime == RampAfter(CountUpdates(events), c.speed);
  }

  /** With nothing bound (the `{}` default), no direction branch ever fires:
      a character at rest stays exactly where it is, whatever keys are
      pressed. */
  lemma {:induction false} UnboundStaysPut(c: Character, events: seq<Event>)
    requires c.keybinds == Unbound && c.velocity == Origin && !c.isMoving
    ensures Run(c, events).velocity == Origin && Run(c, events).position == c.position
    ensures !Run(c, events).isMoving
    decreases |events|
  {
    if |events| > 0 {
      UnboundIsIdle(c.keypresses);
      UnboundStaysPut(Handle(c, events[0]), events[1..]);
    }
  }

  /** A character built without keybinds never leaves its starting point. */
  lemma DefaultKeybindsNeverMove(options: Option<Options>, events: seq<Event>)
    requires options.None? || options.value.keybinds.None?
    ensures Run(NewCharacter(options), events).position == NewCharacter(options).position
  {
    UnboundStaysPut(NewCharacter(options), events);
  }

  /** `n` updates in a row with the pointer at the given angles. */
  function Updates(c: Character, rotations: seq<real>): Character
    decreases |rotations|
  {
    if |rotations| == 0 then c else Updates(OnUpdate(c, rotations[0]), rotations[1..])
  }

  /** With no direction key held, each update only damps: after `n` updates
      each component is its `n`-fold damping. */
  lemma {:induction false} Coasting(c: Character, rotations: seq<real>)
    requires Resolve(c.keybinds, c.keypresses) == Idle
    ensures Updates(c, rotations).velocity.x == DampTicks(c.velocity.x, |rotations|)
    ensures Updates(c, rotations).velocity.y == DampTicks(c.velocity.y, |rotations|)
    decreases |rotations|
  {
    if |rotations| > 0 {
      var c1 := OnUpdate(c, rotations[0]);
      Coasting(c1, rotations[1..]);
      DampShift(c.velocity.x, |rotations| - 1);
      DampShift(c.velocity.y, |rotations| - 1);
    }
  }

  /** Damping `n` more ticks after one tick is damping `n + 1` ticks. */
  lemma {:induction false} DampShift(v: real, n: nat)
    ensures DampTicks(Damp(v), n) == DampTicks(v, n + 1)
  {
    if n > 0 {
      DampShift(v, n - 1);
    }
  }

  /** A character with no direction key held comes to rest exactly after
      enough updates. */
  lemma ComesToRest(c: Character, rotations: seq<real>)
    requires Resolve(c.keybinds, c.keypresses) == Idle
    requires |rotations| >= SettleTicks(c.velocity.x) && |rotations| >= SettleTicks(c.velocity.y)
    ensures Updates(c, rotations).velocity == Origin
  {
    Coasting(c, rotations);
    DampSettles(c.velocity.x, |rotations|);
    DampSettles(c.velocity.y, |rotations|);
  }
}
