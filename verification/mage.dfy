/** The first revision of the character controller (`scripts/game.js`): a
    mage that ramps an acceleration up to its speed, steers in eight
    directions, faces the pointer, and fires a spell through a cooldown
    latch. One call of `controller` is one step; `move`, `renderVelocity`
    and the timer that clears the cooldown are separate events. */
module MageController {
  import opened Optional
  import opened Physics
  import opened Controls

  /** Hit points a mage starts with. */
  const MageHp: real := 5.0

  /** Cap of the acceleration ramp. */
  const MageSpeed: real := 0.15

  /** The data every spell carries: a projectile of damage 10 and speed 1. */
  const SpellDamage: real := 10.0
  const SpellSpeed: real := 1.0

  datatype Mage = Mage(
    position: Vec,
    velocity: Vec,
    hp: real,
    speed: real,
    acceleration: real,
    keybinds: Keybinds,
    keypresses: set<Key>,
    hasCooldown: bool,
    active: bool,
    view: View)

  /** A spell as spawned: a copy of the caster's coordinates and the
      pointer's rotation at the moment of the cast. */
  datatype Spell = Spell(position: Vec, rotation: real, damage: real, speed: real)

  /** The acceleration ramp stays within `[0, speed]`. */
  predicate RampOk(m: Mage) {
    0.0 <= m.acceleration <= m.speed
  }

  /** A new mage: at rest at the origin, no keys held, no cooldown, facing
      right, with the ramp at its bottom. */
  function NewMage(keybinds: Keybinds): (m: Mage)
    ensures m.position == Origin && m.velocity == Origin
    ensures m.acceleration == 0.0 && m.speed == MageSpeed && m.hp == MageHp && RampOk(m)
    ensures m.keybinds == keybinds && m.keypresses == {}
    ensures !m.hasCooldown && !m.active && m.view == FaceRight
  {
    Mage(Origin, Origin, MageHp, MageSpeed, 0.0, keybinds, {}, false, false, FaceRight)
  }

  /** `game.renderVelocity(mage, axis)`: damps one velocity component and
      touches nothing else. */
  function RenderVelocity(m: Mage, axis: Axis): (r: Mage)
    ensures r == m.(velocity := With(m.velocity, axis, Get(r.velocity, axis)))
    ensures Get(r.velocity, axis) == 0.0 || Get(r.velocity, axis) == Friction * Get(m.velocity, axis)
    ensures Get(r.velocity, axis) == 0.0 <==> -0.005 <= Get(m.velocity, axis) < 0.005
    ensures Abs(Get(r.velocity, axis)) <= Abs(Get(m.velocity, axis))
    ensures 0.0 <= Get(m.velocity, axis) ==> 0.0 <= Get(r.velocity, axis)
    ensures Get(m.velocity, axis) <= 0.0 ==> Get(r.velocity, axis) <= 0.0
  {
    m.(velocity := With(m.velocity, axis, Damp(Get(m.velocity, axis))))
  }

  /** `shoot()`: the spell the mage casts with the pointer at `rotation`. */
  function Shoot(m: Mage, rotation: real): Spell {
    Spell(m.position, rotation, SpellDamage, SpellSpeed)
  }

  datatype Outcome = Outcome(mage: Mage, spell: Option<Spell>)

  /** `controller()`: facing, the shoot latch, the direction switch and the
      acceleration ramp, in that order. `rotation` is the pointer's angle in
      degrees. */
  function Controller(m: Mage, rotation: real): (o: Outcome)
    // facing
    ensures o.mage.view == Facing(rotation)
    // shoot latch
    ensures o.spell.Some? <==> Held(m.keybinds.shoot, m.keypresses) && !m.hasCooldown
    ensures o.mage.hasCooldown <==> m.hasCooldown || Held(m.keybinds.shoot, m.keypresses)
    ensures o.spell.Some? ==> o.spell.value.position == m.position && o.spell.value.rotation == rotation
    // direction switch
    ensures o.mage.active <==> Resolve(m.keybinds, m.keypresses) != Idle
    ensures o.mage.velocity == Steer(m.velocity, Resolve(m.keybinds, m.keypresses), m.acceleration)
    ensures !o.mage.active ==> o.mage.velocity == m.velocity
    // acceleration ramp
    ensures o.mage.acceleration <= m.speed
    ensures o.mage.acceleration == Clamp(m.acceleration + RampStep, m.speed)
    ensures RampOk(m) ==> RampOk(o.mage) && m.acceleration <= o.mage.acceleration
    ensures RampOk(m) ==> Abs(o.mage.velocity.x - m.velocity.x) <= m.speed
    ensures RampOk(m) ==> Abs(o.mage.velocity.y - m.velocity.y) <= m.speed
    // nothing else changes
    ensures o.mage.position == m.position && o.mage.speed == m.speed && o.mage.hp == m.hp
    ensures o.mage.keybinds == m.keybinds && o.mage.keypresses == m.keypresses
  {
    var m1 := m.(active := true, view := Facing(rotation));
    var fire := Held(m1.keybinds.shoot, m1.keypresses) && !m1.hasCooldown;
    var m2 := if fire then m1.(hasCooldown := true) else m1;
    var spell := if fire then Some(Shoot(m2, rotation)) else None;
    var d := Resolve(m2.keybinds, m2.keypresses);
    var m3 := m2.(velocity := Steer(m2.velocity, d, m2.acceleration), active := d != Idle);
    var m4 := m3.(acceleration := Clamp(m3.acceleration + RampStep, m3.speed));
    Outcome(m4, spell)
  }

  /** `move()`: the position advances by the velocity; nothing else changes. */
  function Move(m: Mage): (r: Mage)
    ensures r == m.(position := r.position)
    ensures forall a: Axis :: Get(r.position, a) - Get(m.position, a) == Get(m.velocity, a)
  {
    m.(position := Add(m.position, m.velocity))
  }

  /** The timer set by a cast has elapsed: the latch opens again. */
  function CooldownOver(m: Mage): Mage {
    m.(hasCooldown := false)
  }

  /** What can happen to a mage between frames. */
  datatype Event =
    | KeyDown(key: Key)
    | KeyUp(key: Key)
    | Control(rotation: real)
    | Step
    | Damping(axis: Axis)
    | Release

  datatype Trace = Trace(mage: Mage, spells: seq<Spell>)

  function Handle(m: Mage, e: Event): Outcome {
    match e
    case KeyDown(k) => Outcome(m.(keypresses := m.keypresses + {k}), None)
    case KeyUp(k) => Outcome(m.(keypresses := m.keypresses - {k}), None)
    case Control(r) => Controller(m, r)
    case Step => Outcome(Move(m), None)
    case Damping(a) => Outcome(RenderVelocity(m, a), None)
    case Release => Outcome(CooldownOver(m), None)
  }

  /** The mage after a sequence of events, with the spells cast on the way. */
  function Run(m: Mage, events: seq<Event>): Trace
    decreases |events|
  {
    if |events| == 0 then Trace(m, [])
    else
      var o := Handle(m, events[0]);
      var t := Run(o.mage, events[1..]);
      Trace(t.mage, (if o.spell.Some? then [o.spell.value] else []) + t.spells)
  }

  function CountControls(events: seq<Event>): nat {
    if |events| == 0 then 0 else (if events[0].Control? then 1 else 0) + CountControls(events[1..])
  }

  function CountReleases(events: seq<Event>): nat {
    if |events| == 0 then 0 else (if events[0].Release? then 1 else 0) + CountReleases(events[1..])
  }

  function Latched(m: Mage): nat {
    if m.hasCooldown then 1 else 0
  }

  /** Whatever happens, the acceleration stays within `[0, speed]` and the
      speed never changes. */
  lemma {:induction false} RampStaysInBounds(m: Mage, events: seq<Event>)
    requires RampOk(m)
    ensures RampOk(Run(m, events).mage) && Run(m, events).mage.speed == m.speed
    decreases |events|
  {
    if |events| > 0 {
      RampStaysInBounds(Handle(m, events[0]).mage, events[1..]);
    }
  }

  /** The acceleration only moves on `controller` calls, by the ramp. */
  lemma {:induction false} RampFollowsControls(m: Mage, k: nat, events: seq<Event>)
    requires m.acceleration == RampAfter(k, m.speed)
    ensures Run(m, events).mage.acceleration == RampAfter(k + CountControls(events), m.speed)
    ensures Run(m, events).mage.speed == m.speed
    decreases |events|
  {
    if |events| > 0 {
      var m1 := Handle(m, events[0]).mage;
      var k1 := if events[0].Control? then k + 1 else k;
      RampFollowsControls(m1, k1, events[1..]);
    }
  }

  /** From a new mage, after `n` controller steps the acceleration is
      `min(n / 100, 0.15)`: it rises by 0.01 a step, holds at the speed and is
      never reset. */
  lemma RampSchedule(keybinds: Keybinds, events: seq<Event>)
    ensures Run(NewMage(keybinds), events).mage.acceleration
         == Min(RampStep * CountControls(events) as real, MageSpeed)
  {
    RampFollowsControls(NewMage(keybinds), 0, events);
    RampClosedForm(CountControls(events), MageSpeed);
  }

  /** The latch lets through at most one spell per release of the cooldown:
      casts minus releases never exceed the latch's own rise. */
  lemma {:induction false} SpellBudget(m: Mage, events: seq<Event>)
    ensures |Run(m, events).spells| + Latched(m) <= CountReleases(events) + Latched(Run(m, events).mage)
    decreases |events|
  {
    if |events| > 0 {
      SpellBudget(Handle(m, events[0]).mage, events[1..]);
    }
  }

  /** Holding the shoot key forever casts exactly one spell if the cooldown is
      never released. */
  lemma OneSpellWithoutRelease(keybinds: Keybinds, events: seq<Event>)
    requires CountReleases(events) == 0
    ensures |Run(NewMage(keybinds), events).spells| <= 1
  {
    SpellBudget(NewMage(keybinds), events);
  }

  /** Every spell cast during a run carries the projectile data: damage 10
      and speed 1. */
  lemma {:induction false} SpellsCarryData(m: Mage, events: seq<Event>)
    ensures forall i :: 0 <= i < |Run(m, events).spells| ==>
      Run(m, events).spells[i].damage == SpellDamage && Run(m, events).spells[i].speed == SpellSpeed
    decreases |events|
  {
    if |events| > 0 {
      SpellsCarryData(Handle(m, events[0]).mage, events[1..]);
    }
  }
}
