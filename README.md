# Particle field and year overlay, modelled in Dafny

The repository is a decorative canvas animation with three parts:

- **The particle system** (`js/camera.js`). It holds 8000 particles on a 1280 x 720 canvas. In each frame every particle:
  - gets a tangential kick around the circle of the year text when it is closer than 150 (1.5 times the circle's radius 100) to the circle's centre;
  - is pulled toward the mouse and enlarged near it;
  - wraps around the canvas edges;
  - is capped at a maximum speed.
- **Mouse handlers.** They recolour every particle from one of two palettes.
- **Throttle gates.** They skip frames that come too soon after the last one.
- **The year overlay** (`js/textAnimation.js`). It shows a year between 2011 and 2024 with its emissions figure. The particle system moves it on every 15 seconds. Each frame raises the text's opacity by 0.02 and its scale by 0.01 until the opacity would reach 1, when both are set to exactly 1. At start the scale begins at 0.5. A year change restarts the reveal at opacity 0 and scale 0.8, so the text grows past its final size, up to just below 1.3, before it snaps back to 1.
- **An alternate overlay** (`textAnimation.js` at the top of the repository). A touch moves it to the next year, and a frame looks the year up in a table of emission strings, with a fallback.

The model is six files:

- `years.dfy` (`Years`): the year cycle both overlays share.
- `text_overlay.dfy` (`TextOverlay`): the overlay class with its reveal ramp and gate.
- `camera.dfy` (`Camera`): the per-particle update rules, specified as functions, and the `ParticleSystem` class. Its methods update the particle array in place with loops, proved against those functions.
- `touch_overlay.dfy` (`TouchOverlay`): the alternate overlay.
- `gate.dfy` (`Gate`): the throttle test all three animation callbacks use, each with its own interval.
- `options.dfy`: a small `Option` type standing for JavaScript's `null`/`undefined`.

How the model stands in for the runtime:

- JavaScript doubles are exact reals.
- `Math.random()` results are parameters in [0, 1), in the order the code draws them.
- `Math.sqrt` is a parameter `sqrt`. The lemmas about distances and speeds assume it is the exact square root (`IsSqrt`), and so does the frame method `Camera.ParticleSystem.Animate`, which needs it to keep the particle invariant. The mouse handlers do not assume it.
- The cosine and sine of `Math.atan2(dy, dx)` are written exactly as `dx / d` and `dy / d`, and as (1, 0) at `d = 0`.

Statements such as "the opacity is exactly 1 after 50 frames" hold of this real-number idealisation, not of floating point.

Behaviour of the code worth knowing when reading the contracts:

- The wrap maps `x < 0` to `width` and `x > width` to 0. A particle can therefore sit exactly on the far edge: positions stay in the closed box [0, 1280] x [0, 720].
- The mouse push points toward the mouse, because the offset is mouse minus particle. It does not repel.
- From 2011, thirteen year changes reach 2024 and the fourteenth returns to 2011.
- With no mouse, a particle moves by its current speed, including every orbital kick so far. Its speed is not reset to its original speed, and its size is not reset.
- A touch on the alternate overlay changes only the year. The main overlay's year change also restarts the reveal.

## Model

| member | source | states |
|---|---|---|
| Years.Next | js/textAnimation.js:80-90 | a year below 2024 becomes the next year, 2024 becomes 2011; inside the range this is a step of a counter modulo 14 offset by 2011, and the range is kept |
| Years.AdvanceFormula | js/textAnimation.js:80-90 | k year changes from a year in range land on 2011 + (y - 2011 + k) mod 14 |
| Years.AdvanceStaysInRange | js/textAnimation.js:80-90 | starting in [2011, 2024], any number of year changes stays in [2011, 2024] |
| Years.AdvanceCycle | js/textAnimation.js:80-90 | 14 consecutive year changes return to the starting year |
| Years.AdvanceNoShorterCycle | js/textAnimation.js:80-90 | no positive number of year changes below 14 returns to the starting year |
| Years.AdvanceReaches | js/textAnimation.js:80-90 | every year of the range is reached from every other within fewer than 14 changes, with the number of changes given explicitly |
| Years.FromFirstYear | js/textAnimation.js:11 | from 2011, the 13th year change shows 2024 and the 14th shows 2011 again |
| TextOverlay.Emission | js/textAnimation.js:5-10 | the emissions lookup is defined exactly for the years 2011 to 2024 |
| TextOverlay.Ramp | js/textAnimation.js:55-61 | the result stays below full opacity exactly when opacity + 0.02 is below 1, and then opacity and scale grew by exactly 0.02 and 0.01; otherwise both are exactly 1 |
| TextOverlay.RampFixedPoint | js/textAnimation.js:55-61 | (1, 1) is a fixed point of the ramp |
| TextOverlay.RampMonotone | js/textAnimation.js:55-61 | a frame never lowers an opacity that is at most 1 |
| TextOverlay.RampKeepsRevealState | js/textAnimation.js:55-61 | a frame keeps opacity in [0, 1], scale 1 at full opacity, and scale equal to its start value plus half the opacity while appearing |
| TextOverlay.RevealStateScaleBounds | js/textAnimation.js:13-14 | in every reachable reveal state the scale lies in [0.5, 1.3) |
| TextOverlay.RampFramesAppearing | js/textAnimation.js:55-61 | from opacity 0, each of the first 49 frames adds exactly 0.02 to opacity and 0.01 to scale |
| TextOverlay.RevealCompletes | js/textAnimation.js:55-61 | from opacity 0, frame 49 still has opacity below 1 and frame 50 reaches exactly (1, 1) |
| TextOverlay.TextAnimation.constructor | js/textAnimation.js:11-24 | the overlay starts at 2011, opacity 0, scale 0.5, last update 0, animating |
| TextOverlay.TextAnimation.Animate | js/textAnimation.js:26-61 | a frame runs exactly when animating and at least 1000/30 ms passed; a skipped frame changes nothing; a frame that runs records the time, shows the year with its table value and applies one ramp step; opacity never decreases; year in range and reveal state are kept |
| TextOverlay.TextAnimation.NextYear | js/textAnimation.js:80-90 | the year becomes `Years.Next` of the old year and the reveal restarts at opacity 0, scale 0.8 |
| TextOverlay.TextAnimation.GetTextCircle | js/textAnimation.js:92-98 | the circle is centred on the canvas with radius 100 and reads no mutable field |
| Camera.PaletteIndex | js/camera.js:64 | `floor(r * n)` for a draw r in [0, 1) is a valid index below n |
| Camera.InitialColor | js/camera.js:56-65 | the chosen colour is one of the five initial colours |
| Camera.HoverColor | js/camera.js:67-75 | the chosen colour is one of the four hover colours |
| Camera.PalettesDisjoint | js/camera.js:57-73 | no colour is in both palettes |
| Camera.NewParticle | js/camera.js:39-52 | a new particle lies on the canvas, has size and original size in [1, 3), speeds in [-0.15, 0.15), an initial colour, rotation in [0, 2 pi), rotation step in [-0.01, 0.01) and shape 0 or 1 |
| Camera.NewParticleWellFormed | js/camera.js:36-53 | every new particle satisfies the invariant `WellFormed` |
| Camera.InitParticles | js/camera.js:36-53 | creates one particle per set of draws, in order |
| Camera.DistanceBelow | js/camera.js:84-87 | a distance is below a positive bound exactly when the squared distance is below the squared bound |
| Camera.Direction | js/camera.js:152-154 | the direction used for pushes is a unit vector, and away from the origin it is parallel to the offset with projection equal to the distance |
| Camera.Falloff | js/camera.js:149 | a force `(r - d) / r` lies in (0, 1] for 0 <= d < r and is 1 at d = 0 |
| Camera.OrbitKick | js/camera.js:136-139 | the orbital kick is always perpendicular to the direction vector of the offset (the angle turned by a quarter turn) |
| Camera.Orbit | js/camera.js:128-140 | the orbital phase changes only the speed |
| Camera.OrbitPull | js/camera.js:128-140 | within 1.5 radii the force lies in (0, 1] and the kick is added to the current speed, accumulating; farther away nothing changes |
| Camera.OrbitKickTangent | js/camera.js:136-139 | the orbital kick has length force * 0.3, is perpendicular to the offset from the circle's centre, and is turned a quarter turn in the positive angle direction (its cross product with the offset is force * 0.3 * distance), so every particle orbits the same way round |
| Camera.MousePush | js/camera.js:152-154 | the mouse push is always parallel to the direction vector of the offset from particle to mouse |
| Camera.MousePhase | js/camera.js:142-181 | the mouse phase keeps colour, shape, rotation step and the original values, and moves the particle by its new speed |
| Camera.MouseInRange | js/camera.js:148-166 | within 150: force in (0, 1], speed is original speed plus push, position advances by it, size is originalSize * (1 + 1.2 force) with originalSize < size <= 2.2 originalSize, rotation grows by rotationSpeed * (1 + 0.3 force) |
| Camera.Growth | js/camera.js:163 | growing a positive size by 1 + 1.2 f for f in (0, 1] enlarges it, at most 2.2 times |
| Camera.MousePushToward | js/camera.js:148-154 | the push has length force * 1.2 and, away from the mouse's own position, points toward the mouse |
| Camera.MouseOutOfRange | js/camera.js:167-175 | mouse at 150 or more: speed reset to the original speed, position advances by exactly that, size reset, rotation grows by exactly the rotation step |
| Camera.NoMouse | js/camera.js:176-181 | no mouse: the particle moves by its current speed including the orbital kick; speed and size are untouched |
| Camera.Wrap | js/camera.js:184-187 | after the wrap the position lies in the closed canvas box, a coordinate already inside is kept, and only the position changes |
| Camera.WrapOpposite | js/camera.js:184-187 | a coordinate below 0 jumps to the far edge and one beyond the far edge jumps to 0 |
| Camera.ClampBound | js/camera.js:189-195 | after the speed ceiling the squared speed is at most 1.2 squared, and the speed is the old one scaled by a factor in (0, 1] |
| Camera.Clamp | js/camera.js:189-195 | the speed ceiling changes only the two speed components |
| Camera.RecolorWellFormed | js/camera.js:88-90 | giving a particle a colour from either palette keeps the invariant |
| Camera.RecoloredWellFormed | js/camera.js:83-101 | recolouring every particle from the palettes keeps the invariant for all of them |
| Camera.StepWellFormed | js/camera.js:120-195 | one frame keeps every particle on the canvas, below the speed ceiling, with sizes in range and a palette colour |
| Camera.Step | js/camera.js:120-195 | one frame of one particle never changes its colour, shape, rotation step, original speed or original size |
| Camera.StepAll | js/camera.js:120-198 | a frame keeps the number of particles and gives each particle exactly its own `Step`, independent of the others |
| Camera.SteppedWellFormed | js/camera.js:120-198 | a frame over the whole array keeps the invariant for every particle |
| Camera.UpdateParticle | js/camera.js:120-195 | the in-place update of one particle equals the composition of the four phases |
| Camera.ApplyOrbit | js/camera.js:128-140 | the field-by-field orbital update equals `Orbit` |
| Camera.ApplyMouse | js/camera.js:142-181 | the mouse update, with speed, position, size and rotation computed in the source's order, equals `MousePhase` in all three branches |
| Camera.ApplyWrap | js/camera.js:184-187 | the four sequential edge tests equal `Wrap` |
| Camera.ApplySpeedCeiling | js/camera.js:189-195 | the in-place rescale equals `Clamp` |
| Camera.Recolor | js/camera.js:83-92 | recolouring keeps the number of particles and every field but the colour, and every new colour comes from one of the palettes |
| Camera.MoveColor | js/camera.js:87-91 | the colour after a mouse move comes from one of the two palettes |
| Camera.MoveColorPalette | js/camera.js:83-92 | after a mouse move a particle's colour is a hover colour exactly when its squared distance to the mouse is below 150 squared, and an initial colour exactly when it is not |
| Camera.RecolorPalette | js/camera.js:83-92 | for the whole array after a mouse move, each particle has a hover colour exactly when it lies strictly within 150 of the mouse, and an initial colour exactly when it does not |
| Camera.ParticleSystem.constructor | js/camera.js:2-27 | creates the particles from their draws, all satisfying the invariant, no mouse, last time 0, and an overlay at 2011 whose circle is (640, 360, 100) |
| Camera.ParticleSystem.HandleMouseMove | js/camera.js:77-93 | records the mouse position relative to the canvas and recolours the array as `Recolor` does, so each particle gets a hover colour exactly when it lies strictly within 150 of the mouse (`RecolorPalette`), changing nothing else; the invariant is kept |
| Camera.ParticleSystem.HandleMouseLeave | js/camera.js:95-102 | clears the mouse position and gives every particle an initial colour, changing nothing else; the invariant is kept |
| Camera.ParticleSystem.Animate | js/camera.js:104-198 | less than 32 ms after the last frame nothing changes; otherwise the time is recorded and the array becomes `StepAll` of the old array, each particle the `Step` of its old value; the invariant is kept |
| Camera.ParticleSystem.OnYearTimer | js/camera.js:31-33 | the overlay moves to the next year and restarts its reveal |
| Gate.FrameDue | js/camera.js:106 | a callback does its work exactly when the last time plus the interval has been reached; the same test is at js/textAnimation.js:30 (1000/30 ms) and textAnimation.js:85 (66 ms) |
| TouchOverlay.Co2Emission | textAnimation.js:99 | a year in 2011 to 2024 yields its table string, any other year the fallback text |
| TouchOverlay.Co2EmissionFallbackExactly | textAnimation.js:11-26 | the fallback is shown exactly for years outside the table, and the text is never empty |
| TouchOverlay.TextAnimation.OnTouchStart | textAnimation.js:30-37 | a year below 2024 becomes the next year and any other year becomes 2011; only the year changes, and the range is kept |
| TouchOverlay.TextAnimation.Animate | textAnimation.js:83-100 | a frame runs exactly when at least 66 ms passed; a skipped frame keeps the last time; a frame that runs records the time and shows the year with its looked-up text |

## Left out

- Drawing is not modelled. This covers `drawParticle`, `drawTextWithEffects`, clearing the canvas, gradients, shadows, fonts and text positions. These are effects on the browser's 2D context.
- Scheduling is reduced to the callbacks:
  - `requestAnimationFrame` rescheduling and the `setInterval` timer are left out. `ParticleSystem.Animate`, the overlays' `Animate` and `OnYearTimer` model one callback each.
  - Event-listener wiring and the `resize` listener of `textAnimation.js` are left out.
  - The `touchmove` handler only computes touch coordinates and does nothing with them, so it is left out. The `touchstart` handler's coordinates (textAnimation.js:31-34) are likewise unused and left out; its year change is modelled by `TouchOverlay.TextAnimation.OnTouchStart`.
- The canvas rectangle from `getBoundingClientRect` is given to `HandleMouseMove` as the parameters `rectLeft` and `rectTop`.
- Randomness is not modelled as a distribution. Each `Math.random()` result is a parameter in [0, 1). Only the bounds that follow from that range are proved.
- Floating point is not modelled:
  - All arithmetic is exact real arithmetic.
  - `Math.sqrt` is a parameter. It is assumed exact in the lemmas about distances and speeds and in `Camera.ParticleSystem.Animate`.
  - `Math.atan2`, `Math.cos` and `Math.sin` are replaced by the exact ratios `dx / d`, `dy / d`.
  - Rounding, and a speed that the ceiling leaves slightly above 1.2, are out of scope.
- Startup timing is not modelled:
  - Neither constructor calls `animate()` with no time stamp. In the source, that call compares against `NaN` and draws one frame.
  - After construction the gates start from a last time of 0.
- Camera.ParticleSystem.constructor: models the particles, the mouse state, the last time and the overlay. It does not model the immediate first `animate()` call (js/camera.js:28).
- TextOverlay.TextAnimation.constructor: ends in the animating state, which `startAnimation` sets. It does not model the first `animate()` call that `startAnimation` makes (js/textAnimation.js:23).
- The alternate overlay's constructor is not modelled. At textAnimation.js:27 it calls `startAnimation`, which that class does not define, so constructing it throws. Its class has no constructor here, and its handler and lookup are modelled on any instance's state.
- Camera.Direction, Camera.OrbitKickTangent, Camera.MousePushToward: the claims of direction (parallel, perpendicular, toward the mouse) are stated only for a nonzero distance. At distance 0 the source's angle is `atan2(0, 0) = 0`, so the vector is (1, 0), and these lemmas state only its length there.
- String formatting of the displayed year and emissions text is not modelled. A frame returns the year and the looked-up value.
