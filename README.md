# webtree: a verified model of the fractal-tree renderer

webtree draws a fractal tree on an HTML canvas. It has five parameters, each set
by a slider: line thickness, branching angle in degrees, height factor (the
decay applied to the branch length at each level), branching (stored inverted
as the minimum branch length, `10 - slider`) and root direction in radians.

`draw` clears the canvas, fills it white, and strokes a root segment a quarter
of the height long from the bottom centre. It then calls `branch`. `branch`
multiplies the length by the height factor. While the result is above the
threshold, it calls `drawBranch` twice: once turned by `theta + direction` and
once by `-theta + direction`. `drawBranch` saves the context, rotates, strokes
a segment, translates to its far end, recurses and restores.

The model has four modules:

- `Canvas` (`canvas.dfy`): the part of the 2D context the program uses, as a
  class.
  - The current transform is kept symbolically, as the sequence of
    translate/rotate operations since the last reset.
  - Every path command records the transform it was issued under.
  - Every clear, fill and stroke is appended to an effect log.
  - `save`/`restore` push and pop the drawing state.
- `Controls` (`controls.dfy`):
  - the defaults, `radians`, and the inverted threshold mapping;
  - a `Settings` class holding the five module-level parameter variables,
    with the slider handlers and the five resets as methods.
- `Fractal` (`fractal.dfy`): what a render draws, as values.
  - `Levels`/`Depth` count the levels that grow above the threshold.
  - `Tree`/`Child` give the complete binary tree of segments.
  - `Render` gives the whole effect log of one `draw`.
  - The lemmas cover termination, shape, lengths and monotonicity.
- `Renderer` (`renderer.dfy`): `draw`, `drawBranch` and `branch` as methods
  that change the shared context step by step. Each is proved to append
  exactly what `Fractal` describes. `Branch` and `DrawBranch` leave the
  drawing state and save stack as they found them. `Draw` leaves the save
  stack unchanged and states the transform, line width, fill colour and path
  it ends with.

The source has no bound on the recursion. Termination is proved from
`0 < heightFactor < 1` and a positive threshold. A ghost argument `n`, a number
of decays after which the length is at or below the threshold, bounds the
recursion of `Branch`/`DrawBranch` and `Levels`. `DecayBound` shows such an
`n` always exists, and `LevelsIsDepth` shows the count does not depend on
which `n` is used.

## Model

| member | source | states |
|---|---|---|
| Controls.Radians | webtree.js:11 | the result times 180 equals degrees times pi; it is negative or zero exactly when the degrees are |
| Controls.RadiansRoundTrip | webtree.js:11 | converting to radians and back (and the other way) gives the value back |
| Controls.RadiansMonotone | webtree.js:11 | the conversion is strictly increasing, in both directions |
| Controls.ThresholdOf | webtree.js:61-64 | the stored threshold and the slider value sum to 10 |
| Controls.ThresholdRoundTrip | webtree.js:61-64 | the slider-to-threshold mapping is its own inverse |
| Controls.ThresholdAntitone | webtree.js:61-64 | a larger slider value gives a smaller or equal threshold, and conversely |
| Controls.Defaults | webtree.js:1-13 | thickness 1, 25 degrees, height factor 0.66, threshold 2 (slider default 8), direction 0 |
| Controls.Settings.constructor | webtree.js:6-13 | the five variables start at the defaults |
| Controls.Settings.OnThicknessInput | webtree.js:46-49 | only the thickness changes, to the slider value |
| Controls.Settings.OnDegreesInput | webtree.js:51-54 | only the angle changes, to the slider value |
| Controls.Settings.OnHeightInput | webtree.js:56-59 | only the height factor changes, to the slider value |
| Controls.Settings.OnBranchingInput | webtree.js:61-64 | only the threshold changes, to 10 minus the slider value |
| Controls.Settings.OnDirectionInput | webtree.js:66-69 | only the direction changes, to the slider value in radians |
| Controls.Settings.ResetThickness | webtree.js:77-80 | the thickness returns to its default; the other four are unchanged |
| Controls.Settings.ResetDegrees | webtree.js:82-85 | the angle returns to its default; the other four are unchanged |
| Controls.Settings.ResetHeight | webtree.js:87-90 | the height factor returns to its default; the other four are unchanged |
| Controls.Settings.ResetBranching | webtree.js:92-95 | the threshold returns to 10 - 8; the other four are unchanged |
| Controls.Settings.ResetDirection | webtree.js:97-100 | the direction returns to radians(0); the other four are unchanged |
| Controls.Settings.ResetAll | webtree.js:129-134 | after the five resets in turn, every parameter equals its default |
| Canvas.Context.constructor | webtree.js:33 | a fresh context: identity transform, nothing saved, nothing drawn |
| Canvas.Context.ResetTransform | webtree.js:180 | the transform becomes the identity; nothing else changes |
| Canvas.Context.ClearRect | webtree.js:181 | one clear under the current transform is logged; the state is unchanged |
| Canvas.Context.SetFillStyle | webtree.js:184 | only the fill colour changes |
| Canvas.Context.FillRect | webtree.js:185 | one fill in the current colour and transform is logged; the state is unchanged |
| Canvas.Context.Translate | webtree.js:189 | a translation is composed onto the transform; nothing else changes |
| Canvas.Context.Rotate | webtree.js:190 | a rotation is composed onto the transform; nothing else changes |
| Canvas.Context.SetLineWidth | webtree.js:191 | only the line width changes |
| Canvas.Context.BeginPath | webtree.js:192 | the current path is emptied; nothing else changes |
| Canvas.Context.MoveTo | webtree.js:193 | the point is appended to the path, tagged with the current transform |
| Canvas.Context.LineTo | webtree.js:194 | the point is appended to the path, tagged with the current transform |
| Canvas.Context.Stroke | webtree.js:195 | one stroke of the current path at the current width is logged |
| Canvas.Context.Save | webtree.js:205 | the current drawing state is pushed; nothing else changes |
| Canvas.Context.Restore | webtree.js:215 | the last saved state is popped and made current; with nothing saved, no change |
| Fractal.Decayed | webtree.js:219 | one level of decay: the branch length times the height factor (its properties are stated by the lemmas below) |
| Fractal.DecayReaches | webtree.js:218-224 | gives a number of decays after which the length is at or below the threshold |
| Fractal.Levels | webtree.js:218-224 | the number of levels `branch` grows. It is positive exactly when the first decayed length is above the threshold, and it is at most the termination bound |
| Fractal.DecayedStaysBelow | webtree.js:219-220 | a length at or below a positive threshold stays there after one more decay |
| Fractal.DecayBounds | webtree.js:219 | after k decays a non-negative length is between 0 and itself, and at most len / (1 + k(1 - hf)) |
| Fractal.DecayBound | webtree.js:218-224 | with 0 < hf < 1 and a positive threshold, some number of decays reaches the threshold: `branch` terminates |
| Fractal.LevelsSpec | webtree.js:218-224 | the levels `branch` grows are exactly those whose decayed length is above the threshold, and the next one is not |
| Fractal.LevelCountUnique | webtree.js:218-224 | at most one level count satisfies that characterisation |
| Fractal.DepthSpec | webtree.js:218-224 | the bound-independent depth satisfies the characterisation |
| Fractal.LevelsIsDepth | webtree.js:218-224 | whichever termination bound is used, the recursion grows the same number of levels |
| Fractal.DepthAntitone | webtree.js:220 | raising the threshold never adds a level |
| Fractal.DepthBound | webtree.js:218-224 | an explicit bound on the depth: when any level grows, thr * (1 + d(1 - hf)) < len |
| Fractal.Tree | webtree.js:218-224 | what `branch` draws below a branch with `d` levels left: nothing when `d` is 0, otherwise the child at theta + direction and then the child at -theta + direction (its properties are stated by the lemmas below) |
| Fractal.Child | webtree.js:204-216 | what `drawBranch` draws: the segment turned by the angle, then the tree grown from its far end (its properties are stated by the lemmas below) |
| Fractal.TreeUnfold | webtree.js:218-224 | a tree with levels left is its two children side by side, at theta + direction then -theta + direction |
| Fractal.TreeStep | webtree.js:218-224 | when the decayed length is at or below the threshold, `branch` draws nothing; otherwise it draws exactly the two children, in order, each grown one level less |
| Fractal.ChildSize | webtree.js:204-216 | a child grown d levels holds 2^(d+1) - 1 segments |
| Fractal.TreeSize | webtree.js:218-224 | a tree of d levels holds 2^(d+1) - 2 segments: a complete binary tree |
| Fractal.ChildPlaced | webtree.js:204-216 | every stroke of a child is a segment inside the child's rotated frame; only the first is on the child's own level; each is the child's length decayed once per level below it |
| Fractal.TreeSegments | webtree.js:218-224 | every stroke of a tree is a segment inside the tree's frame, at a level between 1 and d, whose length is the starting length decayed once per level |
| Fractal.ChildInTree | webtree.js:218-224 | each child of the root satisfies the tree's placement property |
| Fractal.ChildLevelOne | webtree.js:204-216 | only a child's own segment lies on its first level |
| Fractal.TreeLevelOne | webtree.js:220-222 | exactly two strokes of a tree lie on its first level: the first of each half |
| Fractal.TreeShape | webtree.js:218-224 | a tree's size, the placement of every stroke, and the two first-level strokes, combined |
| Fractal.ChildLevelCount | webtree.js:204-216 | a child with `d` further levels holds 2^(k-1) strokes on level k, for each k from 1 to d + 1, and none elsewhere |
| Fractal.TreeLevelCount | webtree.js:218-224 | a tree with `d` levels is complete and binary: 2^k strokes on level k, for each k from 1 to d, and none elsewhere |
| Fractal.ChildTurned | webtree.js:204-216 | a child drawn with other angles has as many strokes, each at the same level below its base with the same length |
| Fractal.TreeTurned | webtree.js:218-224 | a tree drawn with another branching angle and direction has as many strokes, each at the same level with the same length |
| Fractal.SiblingsOf | webtree.js:221-222 | the first strokes of the two halves are the decayed-length segments turned by theta + direction and -theta + direction; their headings differ by twice theta |
| Fractal.GrownTreeLengths | webtree.js:219-221 | in a grown tree every segment is longer than the threshold; same-level segments are equally long; a deeper segment is strictly shorter; every segment is shorter than the branch it grows from |
| Fractal.DecayedShrinks | webtree.js:219 | one decay keeps a positive length positive and makes it strictly shorter |
| Fractal.DecayStrictlyDecreasing | webtree.js:219 | while positive, the decayed length strictly shrinks with every further level |
| Fractal.BranchLength | webtree.js:28 | the root segment is a quarter of the surface height; it is positive and shorter than a positive height |
| Fractal.RootFrame | webtree.js:189-190 | the root is drawn from the bottom centre under exactly one rotation, and its heading is the direction |
| Fractal.TipFrame | webtree.js:189-198 | the recursion starts inside the root's frame, still one rotation deep and heading in the direction |
| Fractal.Render | webtree.js:176-202 | what `draw` puts on the surface: a clear and a white fill under the identity transform, the root segment, then the tree grown to `Depth` levels (its properties are stated by RenderUnfold and RenderShape) |
| Fractal.RenderUnfold | webtree.js:176-202 | the render is clear, white fill, root segment, then the tree grown to the levels any termination bound finds |
| Fractal.RenderShape | webtree.js:176-202 | a render holds 2 + SegmentCount effects: the root segment of length height/4 at the bottom centre, then segments longer than the threshold |
| Fractal.CountAntitone | webtree.js:220 | raising the threshold never increases the number of segments drawn |
| Fractal.SliderCountMonotone | webtree.js:61-64 | a larger branching slider value never draws fewer segments |
| Fractal.AngleKeepsShape | webtree.js:221-222 | the angle and direction only turn segments: a render with other values clears and fills the same, strokes as many segments, and each lies at the same rotation depth with the same length |
| Fractal.DefaultRootExample | webtree.js:186-198 | with the defaults on 800 by 600, the root is 150 long from (400, 600), and the recursion starts 150 above it |
| Renderer.ClearToWhite | webtree.js:179-186 | the log grows by a clear and a white fill of the whole surface under the identity transform; the fill colour ends black; the line width, path and stack are unchanged |
| Renderer.StrokeSegment | webtree.js:192-195 | begin, move, line, stroke logs one segment of the given length in the current frame; the drawing state is unchanged |
| Renderer.RenderPath | webtree.js:176-202 | after a render, the current path is the one the tree leaves, starting from the root segment's |
| Renderer.Branch | webtree.js:218-224 | the log grows by exactly the tree of `Levels` levels; the drawing state and save stack are as before |
| Renderer.DrawBranch | webtree.js:204-216 | the log grows by the rotated segment and its subtree; save and restore balance, so the drawing state and stack are as before |
| Renderer.Draw | webtree.js:176-202 | the log grows by exactly the render; the transform ends at the root's tip; line width is the thickness, fill black; save stack unchanged |
| Renderer.OnResetAll | webtree.js:129-136 | all five parameters are at their defaults. The log grows by the default render. The context ends with the path the render leaves, the transform at the root's tip, the default line width, black fill and the save stack it had |
| Renderer.Load | webtree.js:1-33 | page load, ending with the `draw()` call at webtree.js:226: the parameters are at their defaults and the context is fresh. The default render is the only thing drawn. The context ends with that render's path, the transform at the root's tip, the default line width, black fill and nothing saved |

## Left out

- DOM and event wiring are not modelled: `querySelector`, `addEventListener`, the slider elements, and the notification element.
- Each slider handler (webtree.js:46-69) and each single reset button (webtree.js:102-125) calls `draw()` after updating its variable. The model proves the update (`Controls.Settings.On*Input`, `Controls.Settings.Reset*`) and `Renderer.Draw` separately. The composition is written out only for reset-all (`Renderer.OnResetAll`).
- The slider positions that the resets write back (webtree.js:79, 84, 89, 94, 99) are not modelled. Note that `resetBranching` writes 2 to the branching slider, whose value is later read as `10 - v`.
- `setupCanvas` and the resize handler (webtree.js:21-38) read the page size. The model takes the width and height as parameters of `Draw`. The canvas size equals them, and `branchLength` is `BranchLength(height)`.
- `theta` is a module-level variable that `draw` sets. The model passes it to `Branch`/`DrawBranch`, with `requires theta == Radians(s.degrees)`.
- Clipboard copy and image download (webtree.js:138-174) are I/O and are left out.
- Numbers are exact reals, not IEEE doubles. `Math.PI` is its 16-digit decimal.
- Slider values are strings in the source. Every use coerces them arithmetically, so the model takes them as numbers.
- Rasterisation, pixel coordinates and trigonometry are left out. A segment is identified by its symbolic frame and length. `Canvas.Rotations`/`Canvas.Heading` give its depth and absolute heading.
- Renderer.Draw: requires `0 < heightFactor < 1` and a positive threshold, and says nothing outside that range. In the source, `branch` stops at once whenever the first decayed length is at or below the threshold, whatever the factor (webtree.js:219-220). So with `heightFactor <= 0` and a threshold of 0 or more, nothing grows beyond the root. When the first decayed length is above the threshold, some settings keep every later length above it too. Two examples are `heightFactor >= 1`, and `0 < heightFactor < 1` with a negative threshold. Then only the JavaScript call-stack limit stops the recursion. A `RangeError` leaves `draw`, and the pending `context.restore()` calls (webtree.js:215) never run, so the context keeps the nested transforms. With a zero threshold and `0 < heightFactor < 1`, each path ends only when the length underflows to zero. With the default factor 0.66 that takes about 1800 levels, so the drawing does not finish in practice. None of these cases is modelled.
- Renderer.Branch: has the same requirement as `Renderer.Draw`, for the same reasons.
- Renderer.DrawBranch: has the same requirement as `Renderer.Draw`, for the same reasons.
- Renderer.Branch: assumes the thickness is positive and finite. `Canvas.Context.SetLineWidth` accepts any value, but a real 2D context ignores a zero, negative or non-finite width and keeps the old one. In that case the strokes would not have the width `Branch` states (its `requires ctx.lineWidth == s.thickness`).
- Fractal.DepthBound: states a bound linear in 1 / (1 - hf), not the logarithmic bound log(thr / len) / log(hf). Logarithms are not available over exact reals here.
