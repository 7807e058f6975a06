/**
 The part of a browser 2D drawing context that the fractal-tree renderer uses.

 The current transform is kept symbolically, as the sequence of translate and
 rotate operations applied since the last reset, so that two transforms are
 equal exactly when the same operations were applied; no pixel coordinate is
 ever computed. Path points remember the transform that was current when they
 were added, and every visible effect on the surface (clearing, filling,
 stroking) is appended to a log.
 */
module Canvas {

  /** One operation composed onto the current transform. */
  datatype Op = Translate(dx: real, dy: real) | Rotate(angle: real)

  datatype Color = White | Black

  /** A path command, with the transform that was current when it was issued. */
  datatype PathOp =
    | MoveTo(frame: seq<Op>, x: real, y: real)
    | LineTo(frame: seq<Op>, x: real, y: real)

  /** An effect on the surface, in the order it was produced. */
  datatype Effect =
    | ClearRect(frame: seq<Op>, x: real, y: real, w: real, h: real)
    | FillRect(frame: seq<Op>, color: Color, x: real, y: real, w: real, h: real)
    | Stroke(width: real, path: seq<PathOp>)

  /** The drawing state that `save` pushes and `restore` pops. */
  datatype DrawState = DrawState(transform: seq<Op>, lineWidth: real, fillStyle: Color)

  /** Number of rotations in a transform: how deeply nested a frame is. */
  function Rotations(ops: seq<Op>): nat
  {
    if ops == [] then 0
    else Rotations(ops[..|ops| - 1]) + (if ops[|ops| - 1].Rotate? then 1 else 0)
  }

  /** Sum of the rotation angles in a transform: the absolute heading of a frame. */
  function Heading(ops: seq<Op>): real
  {
    if ops == [] then 0.0
    else Heading(ops[..|ops| - 1]) + (if ops[|ops| - 1].Rotate? then ops[|ops| - 1].angle else 0.0)
  }

  lemma {:induction false} RotationsAppend(a: seq<Op>, b: seq<Op>)
    ensures Rotations(a + b) == Rotations(a) + Rotations(b)
    ensures Heading(a + b) == Heading(a) + Heading(b)
    decreases |b|
  {
    if b == [] {
      assert a + b == a;
    } else {
      var b' := b[..|b| - 1];
      assert (a + b)[..|a + b| - 1] == a + b';
      assert b[..|b| - 1] == b';
      RotationsAppend(a, b');
    }
  }

  class Context {
    var transform: seq<Op>
    var lineWidth: real
    var fillStyle: Color
    var stack: seq<DrawState>
    var path: seq<PathOp>
    var log: seq<Effect>

    function State(): DrawState
      reads this
    {
      DrawState(transform, lineWidth, fillStyle)
    }

    /** A fresh context: identity transform, line width 1, black fill, nothing drawn. */
    constructor ()
      ensures transform == [] && lineWidth == 1.0 && fillStyle == Black
      ensures stack == [] && path == [] && log == []
    {
      transform, lineWidth, fillStyle := [], 1.0, Black;
      stack, path, log := [], [], [];
    }

    /** `setTransform(1, 0, 0, 1, 0, 0)`: back to the identity transform. */
    method ResetTransform()
      modifies this
      ensures transform == []
      ensures lineWidth == old(lineWidth) && fillStyle == old(fillStyle)
      ensures stack == old(stack) && path == old(path) && log == old(log)
    {
      transform := [];
    }

    method ClearRect(x: real, y: real, w: real, h: real)
      modifies this
      ensures log == old(log) + [Effect.ClearRect(transform, x, y, w, h)]
      ensures transform == old(transform) && lineWidth == old(lineWidth) && fillStyle == old(fillStyle)
      ensures stack == old(stack) && path == old(path)
    {
      log := log + [Effect.ClearRect(transform, x, y, w, h)];
    }

    method SetFillStyle(c: Color)
      modifies this
      ensures fillStyle == c
      ensures transform == old(transform) && lineWidth == old(lineWidth)
      ensures stack == old(stack) && path == old(path) && log == old(log)
    {
      fillStyle := c;
    }

    method FillRect(x: real, y: real, w: real, h: real)
      modifies this
      ensures log == old(log) + [Effect.FillRect(transform, fillStyle, x, y, w, h)]
      ensures transform == old(transform) && lineWidth == old(lineWidth) && fillStyle == old(fillStyle)
      ensures stack == old(stack) && path == old(path)
    {
      log := log + [Effect.FillRect(transform, fillStyle, x, y, w, h)];
    }

    method Translate(dx: real, dy: real)
      modifies this
      ensures transform == old(transform) + [Op.Translate(dx, dy)]
      ensures lineWidth == old(lineWidth) && fillStyle == old(fillStyle)
      ensures stack == old(stack) && path == old(path) && log == old(log)
    {
      transform := transform + [Op.Translate(dx, dy)];
    }

    method Rotate(angle: real)
      modifies this
      ensures transform == old(transform) + [Op.Rotate(angle)]
      ensures lineWidth == old(lineWidth) && fillStyle == old(fillStyle)
      ensures stack == old(stack) && path == old(path) && log == old(log)
    {
      transform := transform + [Op.Rotate(angle)];
    }

    method SetLineWidth(w: real)
      modifies this
      ensures lineWidth == w
      ensures transform == old(transform) && fillStyle == old(fillStyle)
      ensures stack == old(stack) && path == old(path) && log == old(log)
    {
      lineWidth := w;
    }

    method BeginPath()
      modifies this
      ensures path == []
      ensures transform == old(transform) && lineWidth == old(lineWidth) && fillStyle == old(fillStyle)
      ensures stack == old(stack) && log == old(log)
    {
      path := [];
    }

    method MoveTo(x: real, y: real)
      modifies this
      ensures path == old(path) + [PathOp.MoveTo(transform, x, y)]
      ensures transform == old(transform) && lineWidth == old(lineWidth) && fillStyle == old(fillStyle)
      ensures stack == old(stack) && log == old(log)
    {
      path := path + [PathOp.MoveTo(transform, x, y)];
    }

    method LineTo(x: real, y: real)
      modifies this
      ensures path == old(path) + [PathOp.LineTo(transform, x, y)]
      ensures transform == old(transform) && lineWidth == old(lineWidth) && fillStyle == old(fillStyle)
      ensures stack == old(stack) && log == old(log)
    {
      path := path + [PathOp.LineTo(transform, x, y)];
    }

    /** Strokes the current path with the current line width; the path stays current. */
    method Stroke()
      modifies this
      ensures log == old(log) + [Effect.Stroke(lineWidth, path)]
      ensures transform == old(transform) && lineWidth == old(lineWidth) && fillStyle == old(fillStyle)
      ensures stack == old(stack) && path == old(path)
    {
      log := log + [Effect.Stroke(lineWidth, path)];
    }

    method Save()
      modifies this
      ensures stack == old(stack) + [old(State())]
      ensures transform == old(transform) && lineWidth == old(lineWidth) && fillStyle == old(fillStyle)
      ensures path == old(path) && log == old(log)
    {
      stack := stack + [State()];
    }

    /** Pops the most recently saved state; with nothing saved it does nothing. */
    method Restore()
      modifies this
      ensures old(stack) == [] ==> stack == [] && State() == old(State())
      ensures old(stack) != [] ==>
        stack == old(stack)[..|old(stack)| - 1] && State() == old(stack)[|old(stack)| - 1]
      ensures path == old(path) && log == old(log)
    {
      if stack != [] {
        var top := stack[|stack| - 1];
        transform, lineWidth, fillStyle := top.transform, top.lineWidth, top.fillStyle;
        stack := stack[..|stack| - 1];
      }
    }
  }
}
