# Rotating logo sphere — a verified model

`js/scriptanimationlogo.js` draws a sphere of logo glyphs on a canvas. The
sphere turns slowly by itself. Moving the pointer over the canvas steers it,
and when the pointer leaves, the spin decays back to an idle speed. This
project models the sequential logic of that script in Dafny and proves what
it does:

- **Glyph colours** (`glyphs.dfy`, module `Glyphs`). At start-up the script
  builds the table `COLORS`, one row per glyph and one slot per path. A path's
  own `fill` wins. An unfilled path takes slot 0 when slot 0 is truthy, and
  `"#FFF"` otherwise. When the glyph's first child is a `<g>`, slot 0 is first
  seeded with the group's fill. A fill on path 0 then overwrites that seed.
  `GlyphColors` fills the row slot by slot in an array, as the source does.
  It is proved equal to the declarative row `ExpectedRow`.
- **Scene constants and perspective** (`camera.dfy`, module `Camera`). `onResize`
  derives the perspective P = 0.8·w and the globe radius R = w/4 from the width
  it held BEFORE it re-reads the canvas size, so the constants lag one resize
  behind. Because P = 3.2·R always, the projected scale of a point at depth z is
  16/(16+5z) whatever the width. It lies in [16/21, 16/11] and strictly
  decreases with depth.
- **Sphere sampling, rotation and projection** (`sphere.dfy`, module `Sphere`).
  Glyph i of n starts at height 1 − 2i/(n−1) on a golden-angle spiral.
  Each frame, `rotate` applies three planar turns: by VX on (x, y), then by VY
  on (x1, z), then by VZ on (y1, z2). With exact sines and cosines this is a
  true rotation, so every glyph stays on the unit sphere. `project` then takes
  the perspective divide. `draw` hands the canvas a position, a scale, an
  opacity and one fill per path.
- **Pointer-driven velocities** (`velocity.dfy`, module `Velocity`).
  - `mousemove` sets VY and VZ in proportion to the pointer's offset from the
    centre.
  - `mouseout` starts the `slowDownSpin` chain. Each tick divides VY and VZ by
    1.3 and clamps each one to sign·MIN_SPEED once it is no faster than
    MIN_SPEED.
  - The chain stops when an axis equals +MIN_SPEED exactly, or when the pointer
    is back. If both axes are zero or negative, no axis ever reaches
    +MIN_SPEED, so the chain reschedules forever. The model proves this.
- **The frame loop** (`painter.dfy`, module `Painter`).
  - `render` sorts the glyph array in place by projected scale, smallest
    first, then draws each glyph.
  - The sort is a stable insertion sort, the order ECMAScript 2019 requires.
    It is proved sorted, a permutation, and stable.
  - Drawing is what projects, so each frame orders the glyphs by the scales the
    previous frame left.

`Math.cos`, `Math.sin` and `Math.sqrt` are not computed. Their results are
parameters, constrained by cos² + sin² = 1 (`Angle.Unit`) and
radius² = 1 − y². Numbers are Dafny `real`s. A thrown `TypeError` is a
`Failure` result. The script's global variables become two objects:
`Camera.Stage` (the canvas size and scene constants) and `Velocity.Spin` (the
velocities and pointer state).

Four behaviours of the code shape the model:

- The array is sorted before the glyphs are projected: `render` sorts at
  js/scriptanimationlogo.js:194-196 and projects inside `draw` (158), called
  at 199-201. So each frame is ordered by the previous frame's scales.
- The timer chain stops as soon as EITHER axis is exactly +MIN_SPEED (106-108);
  the other axis keeps whatever speed it has.
- A glyph with no child throws a `TypeError` at line 11.
- The opacity at line 170 is not clamped: it reaches 1.75 for the nearest glyph.

## Model

| member | source | states |
|---|---|---|
| Glyphs.GlyphColors | js/scriptanimationlogo.js:10-29 | the slot-by-slot fill of one glyph's row equals the declarative row: failure exactly when the glyph has no child; otherwise one assigned slot per path (a `<g>` with no children gives the one-slot row holding the group fill) |
| Glyphs.BuildColors | js/scriptanimationlogo.js:9-29 | the table succeeds exactly when every glyph has a child, and then row i is glyph i's expected row |
| Glyphs.OwnFillWins | js/scriptanimationlogo.js:20-23 | a path with its own fill gets that fill, whatever slot 0 holds |
| Glyphs.GroupFillInherited | js/scriptanimationlogo.js:11-25 | when path 0 has no fill, every unfilled path takes the group's fill if it is truthy and "#FFF" otherwise |
| Glyphs.FirstPathShadowsGroup | js/scriptanimationlogo.js:19-26 | a fill on path 0 overwrites the seed: later unfilled paths take path 0's colour (or "#FFF" for ""), independent of the group's fill |
| Camera.PerspectiveIsFixedMultiple | js/scriptanimationlogo.js:48-51 | for a positive width the radius is positive and the perspective is exactly 3.2 radii |
| Camera.ScaleIndependentOfWidth | js/scriptanimationlogo.js:149 | with P = 3.2R, R > 0 and z in [-1, 1], the divisor P + zR is positive and P/(P + zR) = 16/(16+5z) |
| Camera.DepthScaleBounds | js/scriptanimationlogo.js:149 | on the unit sphere the scale lies in [16/21, 16/11] |
| Camera.DepthScaleDecreasing | js/scriptanimationlogo.js:149 | z1 < z2 if and only if the scale at z2 is below the scale at z1 |
| Camera.AlphaUnresized | js/scriptanimationlogo.js:170 | while the width is the one R came from, the opacity is 1 − 0.75z, lies in [0.25, 1.75] and exceeds 1 for every point in front |
| Camera.Stage.constructor | js/scriptanimationlogo.js:36-69 | the size read at start-up and the constants derived from it by the first `onResize` |
| Camera.Stage.OnResize | js/scriptanimationlogo.js:47-55 | the constants come from the OLD width and height, the size becomes the new one, and the scene stays valid |
| Sphere.InitialY | js/scriptanimationlogo.js:119 | the starting height lies in [-1, 1]; it is 1 exactly for the first glyph and -1 exactly for the last |
| Sphere.UnitFraction | js/scriptanimationlogo.js:119 | i/(n−1) lies in [0, 1], touching 0 only at i = 0 and 1 only at i = n−1 |
| Sphere.InitialYDecreasing | js/scriptanimationlogo.js:119 | starting heights strictly decrease along the spiral |
| Sphere.SpiralPointOnSphere | js/scriptanimationlogo.js:120-123 | with cos² + sin² = 1 and radius² = 1 − y², the starting point has x² + y² + z² = 1 |
| Sphere.TurnKeepsInner | js/scriptanimationlogo.js:132-139 | one planar turn keeps the inner product of any two coordinate pairs |
| Sphere.RotatedKeepsInner | js/scriptanimationlogo.js:130-143 | the three chained turns keep every inner product, so lengths and angles between glyphs |
| Sphere.RotatedStaysOnSphere | js/scriptanimationlogo.js:130-143 | a rotated point of the unit sphere stays on it |
| Sphere.StepOrderMatters | js/scriptanimationlogo.js:132-139 | applying the VY turn before the VX turn moves (1, 0, 0) elsewhere than `rotate` does, so the fixed order is part of the behaviour |
| Sphere.UnitDepthBounded | js/scriptanimationlogo.js:149 | a point of the unit sphere has its depth in [-1, 1] |
| Sphere.Dot.constructor | js/scriptanimationlogo.js:117-128 | the glyph starts on the unit sphere at its spiral point, unprojected (scale 0), with its colour row and paths |
| Sphere.Dot.Rotate | js/scriptanimationlogo.js:130-143 | the new position is the chained rotation of the old one, still on the unit sphere, and the projected fields are untouched |
| Sphere.Dot.Project | js/scriptanimationlogo.js:146-154 | after rotating, the scale is the perspective divide at the new depth, in [16/21, 16/11] and in step with the depth, and the glyph is placed at centre + R·scale·(x, y) − 64·scale |
| Sphere.Dot.Place | js/scriptanimationlogo.js:149-153 | for a depth in [-1, 1] the divisor is positive, the scale is 16/(16+5z) and the placement formulas hold |
| Sphere.Dot.Draw | js/scriptanimationlogo.js:156-186 | projects the glyph and hands the canvas its projected place (the new position times the globe radius and the scale, about the stage centre, less the scaled dot radius), scale·1.1·width/1920, the opacity at the new depth and the fills of its paths |
| Velocity.Decay | js/scriptanimationlogo.js:98-105 | one tick on one axis keeps the sign, gives 0 only from 0, sets the magnitude to max(\|v\|/1.3, MIN_SPEED) and strictly shrinks any magnitude above MIN_SPEED |
| Velocity.DecayFixesRest | js/scriptanimationlogo.js:98-105 | an axis at 0 or ±MIN_SPEED is left where it is |
| Velocity.DecayNKeepsSign | js/scriptanimationlogo.js:98-105 | any number of ticks keeps an axis's direction |
| Velocity.DecayNShift | js/scriptanimationlogo.js:94-110 | k+1 ticks from v are k ticks from the first tick's result |
| Velocity.SettlesWithin | js/scriptanimationlogo.js:98-105 | an axis no faster than MIN_SPEED·(1 + 0.3k) is clamped within k+1 ticks |
| Velocity.StaysSettled | js/scriptanimationlogo.js:98-105 | once clamped, an axis stays clamped on every later tick |
| Velocity.DecaySettles | js/scriptanimationlogo.js:94-110 | from any velocity, finitely many ticks bring the axis to sign(v)·MIN_SPEED, and it stays there |
| Velocity.MoveSteers | js/scriptanimationlogo.js:80-86 | `mousemove` sets the pointer as present, leaves VX alone, and gives VY and VZ the sign of the horizontal and vertical offsets from the centre, scaled by 0.05 over width and height |
| Velocity.AfterWhileAway | js/scriptanimationlogo.js:94-110 | while the pointer stays away, k ticks decay VY and VZ k times each and change nothing else |
| Velocity.ChainEndsWhenAnAxisPositive | js/scriptanimationlogo.js:106-109 | if VY or VZ is positive when the pointer leaves, some tick does not reschedule |
| Velocity.ChainNeverEndsWhenNonPositive | js/scriptanimationlogo.js:106-109 | if VY and VZ are both zero or negative, every tick reschedules |
| Velocity.ChainStopsWithOtherAxisFast | js/scriptanimationlogo.js:98-108 | with VY = 0.0008 and VZ = -0.02 the first tick brings VY to +MIN_SPEED and ends the chain, leaving VZ at -0.02/1.3, over 20 times MIN_SPEED |
| Velocity.RightOfCentreThenLeave | js/scriptanimationlogo.js:80-111 | a pointer 50 units right of the centre, then leaving: VY > 0 and VZ = 0, and some tick leaves VY at +MIN_SPEED, VZ at 0 and the chain ended |
| Velocity.Spin.constructor | js/scriptanimationlogo.js:72-77 | every axis starts at MIN_SPEED, the pointer at (0, 0) and not present |
| Velocity.Spin.MouseMove | js/scriptanimationlogo.js:80-86 | the state after the handler is the `mousemove` transition from the old state, on the current canvas size |
| Velocity.Spin.SlowDownSpin | js/scriptanimationlogo.js:94-110 | the new state is one tick from the old one, and the result says whether the chain goes on: neither axis ended at +MIN_SPEED and the pointer is away |
| Velocity.Spin.MouseOut | js/scriptanimationlogo.js:88-111 | the state is that many ticks from the old state with the pointer cleared; every tick but the last rescheduled, and a tick is still pending only when the budget ran out |
| Painter.MakeDots | js/scriptanimationlogo.js:188 | one fresh, distinct glyph per colour row, glyph i at spiral point i on the unit sphere, unprojected |
| Painter.InsertNext | js/scriptanimationlogo.js:194-196 | one insertion pass extends the sorted, stable prefix by one and keeps both the glyphs and their scales traced back to their positions before the sort |
| Painter.SortByScale | js/scriptanimationlogo.js:194-196 | the array ends ascending by scale and is a permutation of the old one: `from` maps each place to its old position, injectively; listed through `from`, the scales before the sort ascend, equal scales keeping their old order; distinct glyphs stay distinct |
| Painter.ScaleOrderIsDepthOrder | js/scriptanimationlogo.js:194-196 | when every scale is the one its depth gives, a stable ascending order of the scales is a back-to-front order of the depths |
| Painter.OrderForFrame | js/scriptanimationlogo.js:194-196 | the sort of one frame, stated against the glyphs as they entered it: stably ascending by entry scale, a permutation, and back to front by entry depth when every glyph entered with its scale in step with its depth |
| Painter.EveryPathColoured | js/scriptanimationlogo.js:175-180 | a glyph built from an SVG glyph's colour row, with that glyph's path count, hands the canvas an assigned fill value for every path: no path is filled with `undefined` |
| Painter.DrawAll | js/scriptanimationlogo.js:199-201 | each glyph in array order is rotated once from where it stood, stays on the sphere, gets the scale of its new depth and the place of its new position, and yields the frame's i-th draw call, which carries that place |
| Painter.Render | js/scriptanimationlogo.js:190-203 | the frame's glyphs are the old ones, stably ordered by the scales they entered with; after the first frame that order is back to front by their entry depths, not by the depths this frame's rotation gives them; each glyph turns by the same rotation, stays on the sphere, gets the scale of its new depth and the place of its new position, and yields one draw call at that place, in that order |

## Left out

- SVG and DOM reading (`getElementById`, `children`, `tagName`, `getAttribute`) is not modelled; a glyph is given as an `Element` value. `Path2D` construction is not modelled either, and only the number of paths per glyph is kept.
- Canvas calls are not modelled: sizing, `devicePixelRatio`, `save`/`restore`, `translate`, `scale`, `fillRect`, `fill`. `Draw` returns the values it would hand the canvas as a `DrawCall`.
- `globalAlpha`: a browser ignores an assignment outside [0, 1]. The model records the value the code assigns (up to 1.75), not what the canvas keeps.
- `fillStyle`: a path's own `fill` is stored as written, so it may be `""` or `"none"`. A canvas ignores a `fillStyle` it cannot parse as a colour and keeps the previous one. The model records the fill value the code assigns, not the colour the canvas paints with.
- Clearing the canvas to white at the start of each frame is not modelled, because it is a canvas call.
- Scheduling is not modelled: `requestAnimationFrame`, `setTimeout` and event-listener registration. One frame is one call of `Render`, and a timer tick is one call of `SlowDownSpin`.
- Velocity.Spin.MouseOut: runs at most `timerBudget` timer ticks after the first one. The source's chain is unbounded in time, and `pending` reports when a further tick would still come.
- Several `mouseout` chains running at once are not modelled, and neither are pointer events that arrive between two ticks. Each tick starts from the state it is given.
- The unused `theta`, `setSpeedZ` and `setSpeedY` computed in `mouseout` are not modelled, because they change no state. The `console.log` calls and the `this.theta` field are left out for the same reason.
- Floating-point rounding is not modelled: numbers are reals. The drift of glyphs off the sphere under repeated rounding is therefore not captured, nor is a magnitude that rounds to exactly MIN_SPEED.
- `Math.cos`, `Math.sin` and `Math.sqrt` are parameters that satisfy their identities, and their values are not computed. The golden angle PHI·i is therefore represented only by its (cos, sin) pair.
- Painter.MakeDots: requires a glyph count other than 1, because the script divides 0 by 0 for a single glyph and all its coordinates become NaN.
- Camera.Stage.OnResize: requires a positive canvas size, because a zero width or height makes the script divide by zero (Infinity or NaN positions).
