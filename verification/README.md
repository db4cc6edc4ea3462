# lumen character controller, modelled in Dafny

This project models the per-tick character controller of the lumen
browser game. The source has two revisions of it, and each is modelled as
its own step function over an immutable record.

- `scripts/game.js` has the `Mage`. Each `controller()` call faces the
  pointer and fires a `Spell` through a cooldown latch. It then resolves
  the held keys to one of eight directions, pushes the velocity by the
  current `acceleration`, and ramps that acceleration by 0.01 up to
  `speed`. `move()` and `game.renderVelocity()` (damping) are separate
  steps.
- `script.js` has the `Character`, built from an `options` object whose
  falsy `hp` and `speed` default to 0. One `onUpdate()` does the following, in order:
  1. it raises `elapsedTime` by 0.01;
  2. it faces the pointer;
  3. it pushes the velocity by `elapsedTime` in the resolved direction;
  4. it damps x, then y;
  5. it moves;
  6. it clamps `elapsedTime` to `speed`.

The modules:

| module | file | contents |
|---|---|---|
| `Optional` | `optional.dfy` | `Option`, used for unbound keys and missing options |
| `Physics` | `physics.dfy` | `Vec`, `Math.round`, the damping rule (0.93, snap to 0) and its convergence, the capped ramp |
| `Controls` | `controls.dfy` | keybinds, the key-chord test, the priority switch over the eight directions, the velocity increment per direction, facing |
| `Registry` | `registry.dfy` | `game.objects` and the identity of position objects: pointers alias their owner's position, spells copy it |
| `MageController` | `mage.dfy` | the `scripts/game.js` revision |
| `CharacterController` | `character.dfy` | the `script.js` revision |

Numbers are exact reals. `Math.round(x)` is `Floor(x + 0.5)`, which rounds
half-way cases up as JavaScript does.

An unset keybind (`undefined`) is `None`. The key set only ever holds real
key names, so an unset keybind is never held.

The default branch of the direction switch is modelled as a branch whose
chord is empty, so it always fires. The switch then becomes "the
lowest-ranked branch whose chord is held", and `Controls.ResolveIsFirstMatch`
proves that the if-chain computes exactly that.

The pointer angle, the key set and the release of the cooldown are
inputs. Key presses and releases are events, as are `controller()` /
`onUpdate()` calls, moves, damping calls and cooldown releases. Runs over
event sequences carry the invariants (ramp bounds, spell budget, aliasing).

## Model

| member | source | states |
|---|---|---|
| `Physics.JsRound` | scripts/game.js:18 | the result is the integer nearest to `x`, a half rounding up |
| `Physics.Damp` | scripts/game.js:17-21 | the damped value is 0 or `0.93*v`; it is 0 exactly when `-0.005 <= v < 0.005`; it keeps the sign and never grows in magnitude |
| `Physics.DampDecays` | scripts/game.js:17-21 | until it reaches 0, repeated damping takes at least 0.00035 off the magnitude each tick |
| `Physics.SettleTicks` | scripts/game.js:17-21 | the tick count it returns, times 0.00035, exceeds the magnitude of `v` |
| `Physics.DampSettles` | script.js:84-87 | after `SettleTicks(v)` ticks or more, any component is exactly 0 |
| `Physics.StaysAtRest` | scripts/game.js:20 | a component that has reached 0 stays 0 under further damping |
| `Physics.Clamp` | script.js:194-196 | the clamped value is at most the cap; it is the input when the input is within the cap, otherwise the cap |
| `Physics.RampClosedForm` | scripts/game.js:237-241 | after `n` ramp ticks from 0 the value is `min(0.01*n, cap)`, and it lies in `[0, cap]` |
| `Controls.HasKeypress` | scripts/game.js:158-161 | true iff every requested key is bound and held; true for no keys |
| `Controls.Resolve` | scripts/game.js:203-235 | the chosen branch's chord is held, and no branch tested earlier has its chord held |
| `Controls.ResolveIsFirstMatch` | script.js:155-187 | a branch is chosen iff its chord is held and no earlier branch's chord is held, so exactly one branch applies |
| `Controls.DiagonalsFirst` | scripts/game.js:204-219 | if any diagonal chord is held, the chosen branch is a diagonal |
| `Controls.IdleIffNoDirectionHeld` | scripts/game.js:232-234 | the default branch is taken iff none of up, down, left, right is held |
| `Controls.UnboundIsIdle` | script.js:115 | with the `{}` default keybinds the default branch is taken whatever is held |
| `Controls.PriorityExamples` | scripts/game.js:203-235 | with WASD: up+right+down gives up-right; up+down gives up; left+right gives left; down+left+right gives down-right |
| `Controls.Steer` | scripts/game.js:204-231 | each component changes by the branch's unit step times the increment, so by 0 or plus or minus the increment; the default branch leaves the velocity unchanged; any other branch with a nonzero increment changes it |
| `Controls.Facing` | scripts/game.js:188-192 | the view is right iff `-90 < rotation < 90` |
| `Controls.FacingMirror` | script.js:153 | aiming up or down by the same angle gives the same facing |
| `Registry.Construct` | scripts/game.js:45-56 | a new object is registered, was not registered before, and gets its own position object at the origin |
| `Registry.Registered` | script.js:29 | registering one more object adds exactly that object to the set |
| `Registry.Place` | scripts/game.js:119 | assigning a new position object gives the object those coordinates and no sharer; other objects keep their position objects |
| `Registry.Alias` | scripts/game.js:98 | after assignment the object uses the owner's position object; other objects are unaffected |
| `Registry.SpawnOwner` | script.js:120-122 | the character starts at the origin without a position option; with an object literal it gets a position object of its own holding those coordinates; with an existing position object (such as the cursor's) it takes that very object by reference |
| `Registry.SpawnWithPointer` | script.js:113-131 | character and pointer are two new registered objects; the pointer shares the character's position object; the character starts as `SpawnOwner` places it, sharing an adopted position object with its previous holder |
| `Registry.SpawnSpell` | scripts/game.js:115-120 | the spell is a new registered object at the caster's coordinates, in a position object of its own |
| `Registry.Translate` | scripts/game.js:244-247 | moving an object moves every object sharing its position object, and no other |
| `Registry.Apply` | scripts/game.js:55 | no operation unregisters an object or reassigns an existing object's position object; a private position object stays private unless it is handed to a new character; only the moved object's private position changes |
| `Registry.RegistryOnlyGrows` | script.js:29 | over any run, the registered set only grows |
| `Registry.SharingPersists` | script.js:95 | objects that share a position object share it after any run |
| `Registry.PointerFollows` | scripts/game.js:94-99 | after any run the pointer's coordinates equal its owner's |
| `Registry.UnsharedStays` | scripts/game.js:119 | an object with its own position object, never moved itself and never adopted by a new character, keeps its coordinates over any run |
| `Registry.SpellDetached` | scripts/game.js:115-120 | a spell keeps its caster's coordinates at the cast, however the caster moves later |
| `Registry.AdoptedFollows` | script.js:120-122 | a character given another object's position object in its options reads that object's coordinates after any run, so it moves whenever that object moves |
| `MageController.NewMage` | scripts/game.js:133-144 | a new mage has hp 5, speed 0.15 and acceleration 0; it is at rest at the origin with no keys held and no cooldown, facing right |
| `MageController.RenderVelocity` | scripts/game.js:17-21 | only the named component changes: to 0 or `0.93*v`, 0 exactly in the snap zone, with the sign kept and the magnitude not grown |
| `MageController.Controller` | scripts/game.js:183-242 | facing from the angle; a spell iff shoot is held and there is no cooldown, cast at the mage's position and the pointer's angle; the cooldown latched iff it was latched or shoot is held; `active` iff a direction fired; velocity pushed by the acceleration before the ramp; the new acceleration is the old plus 0.01, capped at `speed`, so the ramp stays in `[0, speed]` and each push is at most `speed`; position, keys and speed untouched |
| `MageController.Move` | scripts/game.js:244-247 | the position advances by the velocity; nothing else changes |
| `MageController.RampStaysInBounds` | scripts/game.js:237-241 | over any run the acceleration stays in `[0, speed]` |
| `MageController.RampFollowsControls` | scripts/game.js:237-241 | only controller steps move the acceleration, one ramp tick each |
| `MageController.RampSchedule` | scripts/game.js:137 | from a new mage the acceleration after `n` controller steps is `min(0.01*n, 0.15)`; it is never reset |
| `MageController.SpellBudget` | scripts/game.js:194-201 | spells cast in a run never exceed the cooldown releases plus the latch's own rise |
| `MageController.OneSpellWithoutRelease` | scripts/game.js:194-201 | without a release, a new mage casts at most one spell however long shoot is held |
| `MageController.SpellsCarryData` | scripts/game.js:163-175 | every spell cast carries damage 10 and speed 1 |
| `CharacterController.NewCharacter` | script.js:76-122 | hp and speed are the options' values, or 0 when absent or 0; keybinds default to `{}`; the position defaults to the origin; velocity and elapsed time start at 0 |
| `CharacterController.Render` | script.js:84-87 | only the named component changes: to 0 or `0.93*v`, 0 exactly in the snap zone, with the sign kept and the magnitude not grown |
| `CharacterController.Input` | script.js:140-148 | true iff every requested key is bound and held; true for no keys |
| `CharacterController.Move` | script.js:203-206 | the position advances by the velocity; nothing else changes |
| `CharacterController.OnUpdate` | script.js:150-197 | `isMoving` iff a direction fired; the push is at most `speed + 0.01`; the velocity is the pushed velocity damped per component, and the position advances by that damped velocity; with no direction held it only decays; the new elapsed time is the old plus 0.01, capped at `speed`, so it stays in `[0, speed]` and never falls; facing from the angle |
| `CharacterController.IncrementOvershoots` | script.js:152-196 | once elapsed time sits at `speed`, a move pushes by `speed + 0.01`, because the clamp comes after the use |
| `CharacterController.ElapsedStaysInBounds` | script.js:194-196 | over any run the elapsed time stays in `[0, speed]` |
| `CharacterController.ElapsedFollowsUpdates` | script.js:152 | only updates move the elapsed time, one ramp tick each |
| `CharacterController.ElapsedSchedule` | script.js:80 | from a new character with `speed >= 0`, the elapsed time after `n` updates is `min(0.01*n, speed)` |
| `CharacterController.UnboundStaysPut` | script.js:115 | with nothing bound, a character at rest never moves and never sets `isMoving`, whatever keys are pressed |
| `CharacterController.DefaultKeybindsNeverMove` | script.js:115-122 | a character built without keybinds stays at its starting position |
| `CharacterController.Coasting` | script.js:184-190 | with no direction held, `n` updates damp each component `n` times |
| `CharacterController.ComesToRest` | script.js:184-190 | with no direction held, the velocity is exactly 0 after enough updates |

## Left out

- DOM and presentation: element creation, `updatePosition`/`animate` transforms, the `Cursor` overlay and the `view`/`view-direction` attribute writes. Facing is kept as a field.
- Scheduling: `setInterval`, `requestAnimationFrame` and `load()`. A `controller()`/`onUpdate()` call is one step, and `move()`/`renderVelocity()` are events of the run.
- `sleep(500)` / `Game.wait`: the cooldown release is an explicit `Release` event, so the 500 ms delay is not modelled.
- Event listeners: keydown/keyup are `KeyDown`/`KeyUp` events adding and removing a key (script.js:241-242); mousemove is not modelled.
- Pointer rotation: `Math.atan2` and the degree conversion are trigonometry, so the angle is an input real. The pointer's `rotation` field is not part of the registry model.
- IEEE-754 doubles: numbers are exact reals. Accumulated rounding in `+= 0.01` and `*= 0.93` is not modelled, and neither is NaN, which JavaScript treats as falsy in the options defaults.
- Object identity: objects and position objects are numbered in allocation order. A registry operation naming an object that was never constructed is a no-op, where JavaScript would throw on `undefined`.
- Position options: `Registry.PositionArg` offers no position, a new object literal, or a position object an object of the scene already holds. A bare object that no scene object holds is a literal the first time it is passed; passing it again is adoption from the first character. `CharacterController.NewCharacter` keeps only the coordinates, and identity lives in the registry model.
- Concrete instantiation (script.js:218-239): the shipped options (hp 100, speed 0.15, WASD, position (224, 112)) are one input of `NewCharacter`. They are not singled out.
- hp, projectile flight and damage, enemies, chests, tiles and rooms have no behaviour in these files beyond the constructor fields modelled here.
- `Game.PIXEL_SIZE`/`pixelSize` only scales presentation and the pointer angle, so it is not modelled.
