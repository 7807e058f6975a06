/**
 The renderer: `draw`, `drawBranch` and `branch`, which work by changing the
 shared drawing context step by step. Each is proved to append exactly what
 the corresponding function of `Fractal` describes and to leave the context's
 drawing state and save stack as it found them (or, for `Draw`, as stated).
 */
module Renderer {
  import opened Canvas
  import opened Controls
  import opened Fractal

  /**
   The path left current after the effects `t`, starting from `before`: that
   of the last stroke, since clearing and filling leave the path alone.
   */
  function LastPath(before: seq<PathOp>, t: seq<Effect>): seq<PathOp>
  {
    if t == [] then before
    else if t[|t| - 1].Stroke? then t[|t| - 1].path
    else LastPath(before, t[..|t| - 1])
  }

  lemma {:induction false} LastPathAppend(before: seq<PathOp>, a: seq<Effect>, b: seq<Effect>)
    ensures LastPath(before, a + b) == LastPath(LastPath(before, a), b)
    decreases |b|
  {
    if b == [] {
      assert a + b == a;
    } else {
      var b' := b[..|b| - 1];
      assert (a + b)[|a + b| - 1] == b[|b| - 1];
      assert (a + b)[..|a + b| - 1] == a + b';
      LastPathAppend(before, a, b');
    }
  }

  /**
   The four calls that both `draw` and `drawBranch` make to stroke a segment of
   length `len` straight up from the origin of the current frame.
   */
  method StrokeSegment(ctx: Context, len: real)
    modifies ctx
    ensures ctx.log == old(ctx.log) + [Segment(ctx.transform, len, ctx.lineWidth)]
    ensures ctx.path == Segment(ctx.transform, len, ctx.lineWidth).path
    ensures ctx.State() == old(ctx.State()) && ctx.stack == old(ctx.stack)
  {
    ctx.BeginPath();
    ctx.MoveTo(0.0, 0.0);
    ctx.LineTo(0.0, -len);
    assert ctx.path == [MoveTo(ctx.transform, 0.0, 0.0), LineTo(ctx.transform, 0.0, -len)];
    ctx.Stroke();
  }

  /**
   The start of `draw`: back to the identity transform, clear the whole surface,
   fill it white, and leave the fill colour black.
   */
  method ClearToWhite(ctx: Context, width: real, height: real)
    modifies ctx
    ensures ctx.log == old(ctx.log)
      + [ClearRect([], 0.0, 0.0, width, height), FillRect([], White, 0.0, 0.0, width, height)]
    ensures ctx.transform == [] && ctx.fillStyle == Black && ctx.lineWidth == old(ctx.lineWidth)
    ensures ctx.path == old(ctx.path) && ctx.stack == old(ctx.stack)
  {
    ctx.ResetTransform();
    ctx.ClearRect(0.0, 0.0, width, height);

    ctx.SetFillStyle(White);
    ctx.FillRect(0.0, 0.0, width, height);
    ctx.SetFillStyle(Black);
  }

  /** After a render the current path is the one the tree leaves, starting from the root segment's. */
  lemma RenderPath(p: Params, width: real, height: real, n: nat, before: seq<PathOp>)
    requires 0.0 < p.heightFactor < 1.0 && 0.0 < p.branching
    requires Decay(BranchLength(height), p.heightFactor, n) <= p.branching
    ensures LastPath(before, Render(p, width, height))
      == LastPath(Segment(RootFrame(p, width, height), BranchLength(height), p.thickness).path,
                  Tree(p, TipFrame(p, width, height), BranchLength(height),
                       Levels(BranchLength(height), p.heightFactor, p.branching, n)))
  {
    var head := [
      ClearRect([], 0.0, 0.0, width, height),
      FillRect([], White, 0.0, 0.0, width, height),
      Segment(RootFrame(p, width, height), BranchLength(height), p.thickness)];
    var tree := Tree(p, TipFrame(p, width, height), BranchLength(height),
                     Levels(BranchLength(height), p.heightFactor, p.branching, n));
    RenderUnfold(p, width, height, n);
    LastPathAppend(before, head, tree);
  }

  /**
   `branch`: decay the length once; if it is still above the threshold, draw
   the child turned by theta + direction and then the one turned by
   -theta + direction. The ghost `n` bounds the remaining levels.
   */
  method Branch(ctx: Context, s: Settings, theta: real, branchHeight: real, ghost n: nat)
    requires 0.0 < s.heightFactor < 1.0 && 0.0 < s.branching
    requires Decay(branchHeight, s.heightFactor, n) <= s.branching
    requires theta == Radians(s.degrees) && ctx.lineWidth == s.thickness
    modifies ctx
    ensures ctx.log == old(ctx.log)
      + Tree(s.Current(), old(ctx.transform), branchHeight, Levels(branchHeight, s.heightFactor, s.branching, n))
    ensures ctx.path == LastPath(old(ctx.path),
      Tree(s.Current(), old(ctx.transform), branchHeight, Levels(branchHeight, s.heightFactor, s.branching, n)))
    ensures ctx.State() == old(ctx.State()) && ctx.stack == old(ctx.stack)
    decreases n, 0
  {
    var h := Decayed(branchHeight, s.heightFactor);
    TreeStep(s.Current(), ctx.transform, branchHeight, n);
    if h > s.branching {
      ghost var p, frame, log0, path0 := s.Current(), ctx.transform, ctx.log, ctx.path;
      ghost var d := Levels(h, s.heightFactor, s.branching, n - 1);
      ghost var c1 := Child(p, frame, h, theta + s.direction, d);
      ghost var c2 := Child(p, frame, h, -theta + s.direction, d);

      DrawBranch(ctx, s, theta, h, theta + s.direction, n - 1);
      DrawBranch(ctx, s, theta, h, -theta + s.direction, n - 1);
      assert ctx.log == log0 + (c1 + c2);
      LastPathAppend(path0, c1, c2);
    }
  }

  /**
   `drawBranch`: save the drawing state, turn by `angle`, stroke a segment of
   length `branchHeight` straight up, move to its far end, grow the levels
   below it, and restore the saved state.
   */
  method DrawBranch(ctx: Context, s: Settings, theta: real, branchHeight: real, angle: real, ghost n: nat)
    requires 0.0 < s.heightFactor < 1.0 && 0.0 < s.branching
    requires Decay(branchHeight, s.heightFactor, n) <= s.branching
    requires theta == Radians(s.degrees) && ctx.lineWidth == s.thickness
    modifies ctx
    ensures ctx.log == old(ctx.log)
      + Child(s.Current(), old(ctx.transform), branchHeight, angle, Levels(branchHeight, s.heightFactor, s.branching, n))
    ensures ctx.path == LastPath(old(ctx.path),
      Child(s.Current(), old(ctx.transform), branchHeight, angle, Levels(branchHeight, s.heightFactor, s.branching, n)))
    ensures ctx.State() == old(ctx.State()) && ctx.stack == old(ctx.stack)
    decreases n, 1
  {
    ghost var frame := ctx.transform;
    ctx.Save();
    ctx.Rotate(angle);

    StrokeSegment(ctx, branchHeight);
    ghost var segment := Segment(frame + [Rotate(angle)], branchHeight, s.thickness);
    assert ctx.log == old(ctx.log) + [segment];

    ctx.Translate(0.0, -branchHeight);
    assert ctx.transform == frame + [Rotate(angle), Translate(0.0, -branchHeight)];
    ghost var sub := Tree(s.Current(), ctx.transform, branchHeight,
                          Levels(branchHeight, s.heightFactor, s.branching, n));
    Branch(ctx, s, theta, branchHeight, n);
    ctx.Restore();
    assert ctx.log == old(ctx.log) + ([segment] + sub);
    LastPathAppend(old(ctx.path), [segment], sub);
  }

  /**
   `draw`: reset the transform, clear and white-fill the surface, stroke the
   root segment from the bottom centre, turned by the direction, then grow
   the tree from its far end. Termination needs a decay below 1 and a
   positive threshold; the source has no other bound on the recursion.
   */
  method Draw(ctx: Context, s: Settings, width: real, height: real)
    requires 0.0 < s.heightFactor < 1.0 && 0.0 < s.branching
    modifies ctx
    ensures ctx.log == old(ctx.log) + Render(s.Current(), width, height)
    ensures ctx.path == LastPath(old(ctx.path), Render(s.Current(), width, height))
    ensures ctx.transform == TipFrame(s.Current(), width, height)
    ensures ctx.lineWidth == s.thickness && ctx.fillStyle == Black
    ensures ctx.stack == old(ctx.stack)
  {
    var theta := Radians(s.degrees);

    ClearToWhite(ctx, width, height);

    var branchLength := BranchLength(height);
    ctx.Translate(width / 2.0, height);
    ctx.Rotate(s.direction);
    ctx.SetLineWidth(s.thickness);
    assert ctx.transform == RootFrame(s.Current(), width, height);
    StrokeSegment(ctx, branchLength);

    ctx.Translate(0.0, -branchLength);

    ghost var head := [
      ClearRect([], 0.0, 0.0, width, height),
      FillRect([], White, 0.0, 0.0, width, height),
      Segment(RootFrame(s.Current(), width, height), branchLength, s.thickness)];
    assert ctx.log == old(ctx.log) + head;
    assert ctx.transform == TipFrame(s.Current(), width, height);

    ghost var n := DecayReaches(branchLength, s.heightFactor, s.branching);
    Branch(ctx, s, theta, branchLength, n);

    RenderUnfold(s.Current(), width, height, n);
    RenderPath(s.Current(), width, height, n, old(ctx.path));
  }

  /**
   The reset-all button: the five resets, then a redraw. What it draws depends
   on the surface size only, so it is what the first render at page load drew.
   */
  method OnResetAll(ctx: Context, s: Settings, width: real, height: real)
    modifies ctx, s
    ensures s.Current() == Defaults()
    ensures ctx.log == old(ctx.log) + Render(Defaults(), width, height)
    ensures ctx.path == LastPath(old(ctx.path), Render(Defaults(), width, height))
    ensures ctx.transform == TipFrame(Defaults(), width, height)
    ensures ctx.lineWidth == Defaults().thickness && ctx.fillStyle == Black
    ensures ctx.stack == old(ctx.stack)
  {
    s.ResetAll();
    Draw(ctx, s, width, height);
  }

  /** Page load: the parameters take their defaults, the context is fresh, and one render runs. */
  method Load(width: real, height: real) returns (ctx: Context, s: Settings)
    ensures fresh(ctx) && fresh(s)
    ensures s.Current() == Defaults()
    ensures ctx.log == Render(Defaults(), width, height)
    ensures ctx.path == LastPath([], Render(Defaults(), width, height))
    ensures ctx.transform == TipFrame(Defaults(), width, height)
    ensures ctx.lineWidth == Defaults().thickness && ctx.fillStyle == Black
    ensures ctx.stack == []
  {
    s := new Settings();
    ctx := new Context();
    Draw(ctx, s, width, height);
  }
}
