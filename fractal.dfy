/**
 What one render draws, as values: the decay arithmetic, the number of levels
 that grow above the threshold, the complete binary tree of segments, and the
 whole effect log of a render. The imperative renderer is proved equal to these.
 */
module Fractal {
  import opened Canvas
  import opened Controls

  /** One level of decay: `branchHeight *= heightFactor`. */
  function Decayed(len: real, hf: real): real
  {
    len * hf
  }

  /** The length after `k` more levels: multiplied by the decay factor `k` times. */
  function Decay(len: real, hf: real, k: nat): real
    decreases k
  {
    if k == 0 then len else Decay(Decayed(len, hf), hf, k - 1)
  }

  function Pow2(k: nat): (r: nat)
    ensures r >= 1
  {
    if k == 0 then 1 else 2 * Pow2(k - 1)
  }

  /** One more level multiplies the decayed length once more by the factor. */
  lemma {:induction false} DecayStep(len: real, hf: real, k: nat)
    ensures Decay(len, hf, k + 1) == Decayed(Decay(len, hf, k), hf)
    decreases k
  {
    if k > 0 {
      DecayStep(Decayed(len, hf), hf, k - 1);
    }
  }

  /** A length at or below a positive threshold stays there once decayed. */
  lemma DecayedStaysBelow(len: real, hf: real, thr: real)
    requires 0.0 < hf < 1.0 && 0.0 < thr
    ensures len <= thr ==> Decayed(len, hf) <= thr
  {
    if len <= thr {
      if 0.0 < len {
        calc {
          len * hf;
        <  len * 1.0;
        == len;
        <= thr;
        }
      } else {
        assert len * hf <= 0.0;
      }
    }
  }

  /**
   A Bernoulli-style bound: after `k` decays a non-negative length has lost at
   least the fraction k * (1 - hf) / (1 + k * (1 - hf)) of itself.
   */
  lemma {:induction false} DecayBounds(len: real, hf: real, k: nat)
    requires 0.0 < hf < 1.0 && 0.0 <= len
    ensures 0.0 <= Decay(len, hf, k) <= len
    ensures Decay(len, hf, k) * (1.0 + (k as real) * (1.0 - hf)) <= len
    decreases k
  {
    if k > 0 {
      var h := Decayed(len, hf);
      assert h == len * hf;
      assert 0.0 <= h <= len;
      DecayBounds(h, hf, k - 1);
      var q := Decay(h, hf, k - 1);
      var c := 1.0 - hf;
      var m := (k - 1) as real;
      assert Decay(len, hf, k) == q;
      assert q * (1.0 + m * c) <= h;
      assert q * c <= h * c;
      assert q * (1.0 + (k as real) * c) == q * (1.0 + m * c) + q * c;
      assert h + h * c <= len by {
        assert h + h * c == len * (hf + hf * c);
        assert hf + hf * c <= 1.0;
      }
      calc {
        Decay(len, hf, k) * (1.0 + (k as real) * c);
      == q * (1.0 + m * c) + q * c;
      <= h + h * c;
      <= len;
      }
    }
  }

  /**
   With a decay strictly below 1 and a positive threshold, every length decays
   to the threshold or below after finitely many levels.
   */
  lemma DecayBound(len: real, hf: real, thr: real)
    requires 0.0 < hf < 1.0 && 0.0 < thr
    ensures exists n: nat :: Decay(len, hf, n) <= thr
  {
    if len <= thr {
      assert Decay(len, hf, 0) <= thr;
    } else {
      var c := 1.0 - hf;
      var x := len / (thr * c);
      var n: nat := x.Floor + 1;
      var nr := n as real;
      assert nr > x;
      assert nr * (thr * c) > len by {
        assert x * (thr * c) == len;
      }
      DecayBounds(len, hf, n);
      var q := Decay(len, hf, n);
      var z := 1.0 + nr * c;
      assert q * z <= len;
      assert len < thr * z;
      assert q * z < thr * z;
      assert q < thr;
    }
  }

  /** A number of decays after which the length is at or below the threshold. */
  lemma DecayReaches(len: real, hf: real, thr: real) returns (n: nat)
    requires 0.0 < hf < 1.0 && 0.0 < thr
    ensures Decay(len, hf, n) <= thr
  {
    DecayBound(len, hf, thr);
    n :| Decay(len, hf, n) <= thr;
  }

  /**
   `d` is the number of levels that grow below a branch of length `len`: the
   lengths after 1, ..., d decays are above the threshold and the next is not.
   */
  ghost predicate IsLevelCount(len: real, hf: real, thr: real, d: nat)
  {
    && (forall k: nat :: 1 <= k <= d ==> Decay(len, hf, k) > thr)
    && Decay(len, hf, d + 1) <= thr
  }

  /**
   The number of levels that grow below a branch of length `len`, counted the
   way `branch` recurses: one more level while the decayed length is still
   above the threshold. The ghost `n` (a number of decays after which the
   length is at or below the threshold) only bounds the recursion.
   */
  function Levels(len: real, hf: real, thr: real, ghost n: nat): (r: nat)
    requires 0.0 < hf < 1.0 && 0.0 < thr
    requires Decay(len, hf, n) <= thr
    ensures r > 0 <==> Decayed(len, hf) > thr
    ensures r <= n
    decreases n
  {
    if Decayed(len, hf) > thr then
      DecayedStaysBelow(len, hf, thr);
      assert n != 0;
      1 + Levels(Decayed(len, hf), hf, thr, n - 1)
    else
      0
  }

  /** The recursion of `Levels` counts exactly the levels above the threshold. */
  lemma {:induction false} LevelsSpec(len: real, hf: real, thr: real, n: nat)
    requires 0.0 < hf < 1.0 && 0.0 < thr
    requires Decay(len, hf, n) <= thr
    ensures IsLevelCount(len, hf, thr, Levels(len, hf, thr, n))
    decreases n
  {
    var h := Decayed(len, hf);
    if h > thr {
      DecayedStaysBelow(len, hf, thr);
      var d' := Levels(h, hf, thr, n - 1);
      LevelsSpec(h, hf, thr, n - 1);
      forall k: nat | 1 <= k <= d' + 1
        ensures Decay(len, hf, k) > thr
      {
        assert Decay(len, hf, k) == Decay(h, hf, k - 1);
      }
      assert Decay(len, hf, d' + 2) == Decay(h, hf, d' + 1);
    }
  }

  /** The characterisation fixes the count: at most one number of levels satisfies it. */
  lemma LevelCountUnique(len: real, hf: real, thr: real, d1: nat, d2: nat)
    requires IsLevelCount(len, hf, thr, d1) && IsLevelCount(len, hf, thr, d2)
    ensures d1 == d2
  {
  }

  /** The number of levels below a branch of length `len`, whatever bound proves it finite. */
  ghost function Depth(len: real, hf: real, thr: real): nat
    requires 0.0 < hf < 1.0 && 0.0 < thr
  {
    DecayBound(len, hf, thr);
    var n: nat :| Decay(len, hf, n) <= thr;
    Levels(len, hf, thr, n)
  }

  lemma DepthSpec(len: real, hf: real, thr: real)
    requires 0.0 < hf < 1.0 && 0.0 < thr
    ensures IsLevelCount(len, hf, thr, Depth(len, hf, thr))
  {
    DecayBound(len, hf, thr);
    var n: nat :| Decay(len, hf, n) <= thr && Depth(len, hf, thr) == Levels(len, hf, thr, n);
    LevelsSpec(len, hf, thr, n);
  }

  /** Whatever bound is used to reach it, the count of levels is the same. */
  lemma LevelsIsDepth(len: real, hf: real, thr: real, n: nat)
    requires 0.0 < hf < 1.0 && 0.0 < thr
    requires Decay(len, hf, n) <= thr
    ensures Levels(len, hf, thr, n) == Depth(len, hf, thr)
  {
    LevelsSpec(len, hf, thr, n);
    DepthSpec(len, hf, thr);
    LevelCountUnique(len, hf, thr, Levels(len, hf, thr, n), Depth(len, hf, thr));
  }

  /** Raising the threshold never adds a level. */
  lemma DepthAntitone(len: real, hf: real, thr1: real, thr2: real)
    requires 0.0 < hf < 1.0 && 0.0 < thr1 <= thr2
    ensures Depth(len, hf, thr2) <= Depth(len, hf, thr1)
  {
    DepthSpec(len, hf, thr1);
    DepthSpec(len, hf, thr2);
  }

  /**
   An explicit bound on the recursion depth: when any level grows, the
   threshold times 1 + d * (1 - hf) stays below the starting length, so d is
   less than (len / thr - 1) / (1 - hf).
   */
  lemma DepthBound(len: real, hf: real, thr: real)
    requires 0.0 < hf < 1.0 && 0.0 < thr
    ensures Depth(len, hf, thr) > 0 ==>
      thr * (1.0 + (Depth(len, hf, thr) as real) * (1.0 - hf)) < len
  {
    var d := Depth(len, hf, thr);
    if d > 0 {
      DepthSpec(len, hf, thr);
      assert Decayed(len, hf) > thr by {
        assert Decay(len, hf, 1) > thr;
      }
      DecayedStaysBelow(len, hf, thr);
      DecayBounds(len, hf, d);
      var q := Decay(len, hf, d);
      var z := 1.0 + (d as real) * (1.0 - hf);
      assert q > thr;
      assert z > 0.0;
      assert thr * z < q * z;
    }
  }

  /** A segment from the local origin straight up by `len`, in the given frame. */
  function Segment(frame: seq<Op>, len: real, width: real): Effect
  {
    Stroke(width, [MoveTo(frame, 0.0, 0.0), LineTo(frame, 0.0, -len)])
  }

  /** The frame a stroked segment was drawn in. */
  function SegFrame(e: Effect): seq<Op>
  {
    if e.Stroke? && |e.path| > 0 then e.path[0].frame else []
  }

  /** The length of a stroked segment. */
  function SegLength(e: Effect): real
  {
    if e.Stroke? && |e.path| > 1 then -e.path[1].y else 0.0
  }

  predicate IsSegment(e: Effect, width: real)
  {
    e == Segment(SegFrame(e), SegLength(e), width)
  }

  /** How many rotations deeper than `base` a segment was drawn: its level in the tree. */
  function Level(base: seq<Op>, e: Effect): int
  {
    Rotations(SegFrame(e)) - Rotations(base)
  }

  /**
   What `branch` draws below a segment of length `len` whose far end is the
   origin of `frame`, when `d` levels grow: nothing when `d` is 0, otherwise
   the two children at angles theta + direction and -theta + direction, in
   that order.
   */
  function Tree(p: Params, frame: seq<Op>, len: real, d: nat): (r: seq<Effect>)
    decreases d, 0
  {
    if d == 0 then []
    else
      var h := Decayed(len, p.heightFactor);
      var theta := Radians(p.degrees);
      Child(p, frame, h, theta + p.direction, d - 1)
        + Child(p, frame, h, -theta + p.direction, d - 1)
  }

  /**
   What `drawBranch` draws: the segment of length `h` rotated by `angle`, then
   the `d` levels that grow from its far end.
   */
  function Child(p: Params, frame: seq<Op>, h: real, angle: real, d: nat): (r: seq<Effect>)
    decreases d, 1
  {
    [Segment(frame + [Rotate(angle)], h, p.thickness)]
      + Tree(p, frame + [Rotate(angle), Translate(0.0, -h)], h, d)
  }

  /** One level of `Tree`: its two children, side by side. */
  lemma TreeUnfold(p: Params, frame: seq<Op>, len: real, d: nat)
    requires d > 0
    ensures Tree(p, frame, len, d)
         == Child(p, frame, Decayed(len, p.heightFactor), Radians(p.degrees) + p.direction, d - 1)
          + Child(p, frame, Decayed(len, p.heightFactor), -Radians(p.degrees) + p.direction, d - 1)
  {
  }

  /**
   One step of growing a tree to the levels a bound `n` finds: when the
   decayed length is above the threshold, the tree is the two children, each
   grown one level less; otherwise nothing is drawn.
   */
  lemma TreeStep(p: Params, frame: seq<Op>, len: real, n: nat)
    requires 0.0 < p.heightFactor < 1.0 && 0.0 < p.branching
    requires Decay(len, p.heightFactor, n) <= p.branching
    ensures Decayed(len, p.heightFactor) > p.branching ==>
      n > 0 && Decay(Decayed(len, p.heightFactor), p.heightFactor, n - 1) <= p.branching
    ensures Decayed(len, p.heightFactor) <= p.branching ==> Tree(p, frame, len, Levels(len, p.heightFactor, p.branching, n)) == []
    ensures Decayed(len, p.heightFactor) > p.branching ==>
      var h := Decayed(len, p.heightFactor);
      var d := Levels(h, p.heightFactor, p.branching, n - 1);
      Tree(p, frame, len, Levels(len, p.heightFactor, p.branching, n))
        == Child(p, frame, h, Radians(p.degrees) + p.direction, d)
         + Child(p, frame, h, -Radians(p.degrees) + p.direction, d)
  {
    var hf, thr := p.heightFactor, p.branching;
    var h := Decayed(len, hf);
    if h > thr {
      DecayedStaysBelow(len, hf, thr);
      assert n != 0;
      TreeUnfold(p, frame, len, Levels(len, hf, thr, n));
    }
  }

  lemma {:induction false} ChildSize(p: Params, frame: seq<Op>, h: real, angle: real, d: nat)
    ensures |Child(p, frame, h, angle, d)| == 2 * Pow2(d) - 1
    decreases d, 1
  {
    TreeSize(p, frame + [Rotate(angle), Translate(0.0, -h)], h, d);
  }

  /** A tree with `d` levels holds 2 + 4 + ... + 2^d segments. */
  lemma {:induction false} TreeSize(p: Params, frame: seq<Op>, len: real, d: nat)
    ensures |Tree(p, frame, len, d)| == 2 * Pow2(d) - 2
    decreases d, 0
  {
    if d > 0 {
      var h := Decayed(len, p.heightFactor);
      TreeUnfold(p, frame, len, d);
      ChildSize(p, frame, h, Radians(p.degrees) + p.direction, d - 1);
      ChildSize(p, frame, h, -Radians(p.degrees) + p.direction, d - 1);
    }
  }

  /**
   A stroke of the tree grown below `frame` from a branch of length `len`:
   a straight segment drawn inside `frame`, at a level k between 1 and `d`,
   whose length is `len` decayed k times.
   */
  ghost predicate PlacedBelow(p: Params, frame: seq<Op>, len: real, d: nat, e: Effect)
  {
    && IsSegment(e, p.thickness)
    && frame <= SegFrame(e)
    && 1 <= Level(frame, e) <= d
    && SegLength(e) == Decay(len, p.heightFactor, Level(frame, e))
  }

  ghost predicate AllPlaced(p: Params, frame: seq<Op>, len: real, d: nat, t: seq<Effect>)
  {
    forall i :: 0 <= i < |t| ==> PlacedBelow(p, frame, len, d, t[i])
  }

  /**
   The strokes `c` of a child turned by `angle` from `frame`, of length `h`
   and `d` further levels: segments inside the turned frame, the first alone
   on the first level, each as long as `h` decayed once per level below it.
   */
  ghost predicate ChildStrokes(p: Params, frame: seq<Op>, h: real, angle: real, d: nat, c: seq<Effect>)
  {
    forall i :: 0 <= i < |c| ==>
      && IsSegment(c[i], p.thickness)
      && frame + [Rotate(angle)] <= SegFrame(c[i])
      && 1 <= Level(frame, c[i]) <= d + 1
      && (Level(frame, c[i]) == 1 <==> i == 0)
      && SegLength(c[i]) == Decay(h, p.heightFactor, Level(frame, c[i]) - 1)
  }

  lemma {:induction false} ChildPlaced(p: Params, frame: seq<Op>, h: real, angle: real, d: nat)
    ensures ChildStrokes(p, frame, h, angle, d, Child(p, frame, h, angle, d))
    decreases d, 2
  {
    var c := Child(p, frame, h, angle, d);
    var f1 := frame + [Rotate(angle)];
    var f2 := frame + [Rotate(angle), Translate(0.0, -h)];
    var sub := Tree(p, f2, h, d);
    TreeSegments(p, f2, h, d);
    RotationsAppend(frame, [Rotate(angle)]);
    RotationsAppend(frame, [Rotate(angle), Translate(0.0, -h)]);
    assert [Rotate(angle), Translate(0.0, -h)][..1] == [Rotate(angle)];
    assert Rotations([Rotate(angle), Translate(0.0, -h)]) == 1;
    assert c == [Segment(f1, h, p.thickness)] + sub;
    assert Level(frame, c[0]) == 1;
    assert f1 <= f2;
    forall i | 1 <= i < |c|
      ensures f1 <= SegFrame(c[i])
      ensures Level(frame, c[i]) == Level(f2, c[i]) + 1
    {
      assert c[i] == sub[i - 1];
      assert PlacedBelow(p, f2, h, d, sub[i - 1]);
    }
  }

  /** Every stroke of a tree is a segment placed at its level with that level's length. */
  lemma {:induction false} TreeSegments(p: Params, frame: seq<Op>, len: real, d: nat)
    ensures AllPlaced(p, frame, len, d, Tree(p, frame, len, d))
    decreases d, 1
  {
    if d > 0 {
      var h := Decayed(len, p.heightFactor);
      var theta := Radians(p.degrees);
      var c1 := Child(p, frame, h, theta + p.direction, d - 1);
      var c2 := Child(p, frame, h, -theta + p.direction, d - 1);
      TreeUnfold(p, frame, len, d);
      ChildInTree(p, frame, len, h, theta + p.direction, d);
      ChildInTree(p, frame, len, h, -theta + p.direction, d);
      AllPlacedConcat(p, frame, len, d, c1, c2);
    }
  }

  /** Each child of a tree's root holds strokes placed as the tree requires. */
  lemma {:induction false} ChildInTree(p: Params, frame: seq<Op>, len: real, h: real, angle: real, d: nat)
    requires d > 0 && h == Decayed(len, p.heightFactor)
    ensures AllPlaced(p, frame, len, d, Child(p, frame, h, angle, d - 1))
    decreases d, 0
  {
    var hf := p.heightFactor;
    var c := Child(p, frame, h, angle, d - 1);
    ChildPlaced(p, frame, h, angle, d - 1);
    forall i | 0 <= i < |c|
      ensures PlacedBelow(p, frame, len, d, c[i])
    {
      assert frame <= frame + [Rotate(angle)] <= SegFrame(c[i]);
      assert Decay(len, hf, Level(frame, c[i])) == Decay(h, hf, Level(frame, c[i]) - 1);
    }
  }

  lemma AllPlacedConcat(p: Params, frame: seq<Op>, len: real, d: nat, a: seq<Effect>, b: seq<Effect>)
    requires AllPlaced(p, frame, len, d, a) && AllPlaced(p, frame, len, d, b)
    ensures AllPlaced(p, frame, len, d, a + b)
  {
    forall i | 0 <= i < |a + b|
      ensures PlacedBelow(p, frame, len, d, (a + b)[i])
    {
      if i < |a| {
        assert (a + b)[i] == a[i];
      } else {
        assert (a + b)[i] == b[i - |a|];
      }
    }
  }

  /** Only the first stroke of a child, its own segment, lies on the first level below `frame`. */
  lemma ChildLevelOne(p: Params, frame: seq<Op>, h: real, angle: real, d: nat)
    ensures var c := Child(p, frame, h, angle, d);
      forall i :: 0 <= i < |c| ==> (Level(frame, c[i]) == 1 <==> i == 0)
  {
    ChildPlaced(p, frame, h, angle, d);
  }

  /** Exactly two strokes of a tree lie on its first level: the first of each half. */
  lemma TreeLevelOne(p: Params, frame: seq<Op>, len: real, d: nat)
    ensures var t := Tree(p, frame, len, d);
      forall i :: 0 <= i < |t| ==> (Level(frame, t[i]) == 1 <==> i == 0 || i == |t| / 2)
  {
    if d > 0 {
      var t := Tree(p, frame, len, d);
      var h := Decayed(len, p.heightFactor);
      var theta := Radians(p.degrees);
      var a1, a2 := theta + p.direction, -theta + p.direction;
      var c1 := Child(p, frame, h, a1, d - 1);
      var c2 := Child(p, frame, h, a2, d - 1);
      TreeUnfold(p, frame, len, d);
      ChildSize(p, frame, h, a1, d - 1);
      ChildSize(p, frame, h, a2, d - 1);
      ChildLevelOne(p, frame, h, a1, d - 1);
      ChildLevelOne(p, frame, h, a2, d - 1);
      assert |t| / 2 == |c1|;
      forall i | 0 <= i < |t|
        ensures Level(frame, t[i]) == 1 <==> i == 0 || i == |t| / 2
      {
        if i < |c1| {
          assert t[i] == c1[i];
        } else {
          assert t[i] == c2[i - |c1|];
        }
      }
    }
  }

  /**
   The shape of a tree with `d` levels: 2^(d+1) - 2 segments, each placed at
   its level with that level's length, and exactly two on the first level, at
   the start of each half.
   */
  lemma TreeShape(p: Params, frame: seq<Op>, len: real, d: nat)
    ensures var t := Tree(p, frame, len, d);
      && |t| == 2 * Pow2(d) - 2
      && AllPlaced(p, frame, len, d, t)
      && (forall i :: 0 <= i < |t| ==> (Level(frame, t[i]) == 1 <==> i == 0 || i == |t| / 2))
  {
    TreeSize(p, frame, len, d);
    TreeSegments(p, frame, len, d);
    TreeLevelOne(p, frame, len, d);
  }

  /** The number of strokes of `t` that lie `k` rotations below `base`. */
  function AtLevel(base: seq<Op>, t: seq<Effect>, k: int): nat
    decreases |t|
  {
    if t == [] then 0
    else (if Level(base, t[0]) == k then 1 else 0) + AtLevel(base, t[1..], k)
  }

  lemma {:induction false} AtLevelConcat(base: seq<Op>, a: seq<Effect>, b: seq<Effect>, k: int)
    ensures AtLevel(base, a + b, k) == AtLevel(base, a, k) + AtLevel(base, b, k)
    decreases |a|
  {
    if a == [] {
      assert a + b == b;
    } else {
      assert (a + b)[0] == a[0];
      assert (a + b)[1..] == a[1..] + b;
      AtLevelConcat(base, a[1..], b, k);
    }
  }

  /**
   Two halves that each hold 2^(k-1) strokes on level k, for k from 1 to
   `d + 1`, together hold 2^k on those levels.
   */
  lemma AtLevelHalves(base: seq<Op>, t: seq<Effect>, a: seq<Effect>, b: seq<Effect>, k: int, d: nat)
    requires t == a + b
    requires AtLevel(base, a, k) == if 1 <= k <= d + 1 then Pow2(k - 1) else 0
    requires AtLevel(base, b, k) == if 1 <= k <= d + 1 then Pow2(k - 1) else 0
    ensures AtLevel(base, t, k) == if 1 <= k <= d + 1 then Pow2(k) else 0
  {
    AtLevelConcat(base, a, b, k);
  }

  /** Counting from a frame one rotation deeper shifts every level by one. */
  lemma {:induction false} AtLevelShift(base: seq<Op>, inner: seq<Op>, t: seq<Effect>, k: int)
    requires Rotations(inner) == Rotations(base) + 1
    ensures AtLevel(base, t, k) == AtLevel(inner, t, k - 1)
    decreases |t|
  {
    if t != [] {
      AtLevelShift(base, inner, t[1..], k);
    }
  }

  /**
   A child with `d` further levels holds 2^(k-1) strokes on level k, for k
   from 1 to d + 1, and none elsewhere. The child's strokes are passed as `c`,
   so that the count is stated about them and not about a fresh unfolding.
   */
  lemma {:induction false} ChildLevelCount(p: Params, frame: seq<Op>, h: real, angle: real, d: nat, k: int, c: seq<Effect>)
    requires c == Child(p, frame, h, angle, d)
    ensures AtLevel(frame, c, k) == if 1 <= k <= d + 1 then Pow2(k - 1) else 0
    decreases d, 1
  {
    var f1 := frame + [Rotate(angle)];
    var f2 := frame + [Rotate(angle), Translate(0.0, -h)];
    var seg := Segment(f1, h, p.thickness);
    var sub := Tree(p, f2, h, d);
    RotationsAppend(frame, [Rotate(angle)]);
    RotationsAppend(frame, [Rotate(angle), Translate(0.0, -h)]);
    assert [Rotate(angle), Translate(0.0, -h)][..1] == [Rotate(angle)];
    assert [Rotate(angle)][..0] == [];
    assert Rotations([Rotate(angle), Translate(0.0, -h)]) == 1;
    assert Level(frame, seg) == 1;
    assert AtLevel(frame, [seg], k) == (if k == 1 then 1 else 0) by {
      assert [seg][1..] == [];
    }
    AtLevelConcat(frame, [seg], sub, k);
    AtLevelShift(frame, f2, sub, k);
    TreeLevelCount(p, f2, h, d, k - 1, sub);
  }

  /**
   A tree with `d` levels is complete and binary, level by level: 2^k of its
   strokes lie on level k for every k from 1 to d, and none elsewhere.
   */
  lemma {:induction false} TreeLevelCount(p: Params, frame: seq<Op>, len: real, d: nat, k: int, t: seq<Effect>)
    requires t == Tree(p, frame, len, d)
    ensures AtLevel(frame, t, k) == if 1 <= k <= d then Pow2(k) else 0
    decreases d, 0
  {
    if d > 0 {
      var h := Decayed(len, p.heightFactor);
      var a1 := Radians(p.degrees) + p.direction;
      var a2 := -Radians(p.degrees) + p.direction;
      var c1 := Child(p, frame, h, a1, d - 1);
      var c2 := Child(p, frame, h, a2, d - 1);
      ChildLevelCount(p, frame, h, a1, d - 1, k, c1);
      ChildLevelCount(p, frame, h, a2, d - 1, k, c2);
      TreeUnfold(p, frame, len, d);
      AtLevelHalves(frame, t, c1, c2, k, d - 1);
    }
  }

  /**
   Two stroke sequences with the same shape: as many strokes, and the strokes
   at each index lie equally deep below their bases and are equally long.
   */
  ghost predicate SameShape(fp: seq<Op>, tp: seq<Effect>, fq: seq<Op>, tq: seq<Effect>)
  {
    && |tp| == |tq|
    && forall i :: 0 <= i < |tp| ==>
         Level(fp, tp[i]) == Level(fq, tq[i]) && SegLength(tp[i]) == SegLength(tq[i])
  }

  lemma SameShapeConcat(fp: seq<Op>, a: seq<Effect>, b: seq<Effect>, fq: seq<Op>, c: seq<Effect>, e: seq<Effect>)
    requires SameShape(fp, a, fq, c) && SameShape(fp, b, fq, e)
    ensures SameShape(fp, a + b, fq, c + e)
  {
    forall i | 0 <= i < |a + b|
      ensures Level(fp, (a + b)[i]) == Level(fq, (c + e)[i])
      ensures SegLength((a + b)[i]) == SegLength((c + e)[i])
    {
      if i < |a| {
        assert (a + b)[i] == a[i] && (c + e)[i] == c[i];
      } else {
        assert (a + b)[i] == b[i - |a|] && (c + e)[i] == e[i - |a|];
      }
    }
  }

  /** Measuring from bases one rotation shallower keeps two shapes equal. */
  lemma SameShapeRebase(fp: seq<Op>, fp2: seq<Op>, tp: seq<Effect>, fq: seq<Op>, fq2: seq<Op>, tq: seq<Effect>)
    requires Rotations(fp2) == Rotations(fp) + 1 && Rotations(fq2) == Rotations(fq) + 1
    requires SameShape(fp2, tp, fq2, tq)
    ensures SameShape(fp, tp, fq, tq)
  {
  }

  /** The segment and the subtree of a child both lie one rotation below its base. */
  lemma ChildFrames(frame: seq<Op>, angle: real, h: real)
    ensures Rotations(frame + [Rotate(angle)]) == Rotations(frame) + 1
    ensures Rotations(frame + [Rotate(angle), Translate(0.0, -h)]) == Rotations(frame) + 1
  {
    RotationsAppend(frame, [Rotate(angle)]);
    RotationsAppend(frame, [Rotate(angle), Translate(0.0, -h)]);
    assert [Rotate(angle), Translate(0.0, -h)][..1] == [Rotate(angle)];
    assert [Rotate(angle)][..0] == [];
  }

  /** A child's own segment, turned by another angle, keeps its level and length. */
  lemma SegmentTurned(fp: seq<Op>, ap: real, fq: seq<Op>, aq: real, h: real, width: real)
    ensures SameShape(fp, [Segment(fp + [Rotate(ap)], h, width)], fq, [Segment(fq + [Rotate(aq)], h, width)])
  {
    var segp, segq := Segment(fp + [Rotate(ap)], h, width), Segment(fq + [Rotate(aq)], h, width);
    assert SegFrame(segp) == fp + [Rotate(ap)] && SegFrame(segq) == fq + [Rotate(aq)];
    ChildFrames(fp, ap, h);
    ChildFrames(fq, aq, h);
    assert Level(fp, segp) == 1 == Level(fq, segq);
    assert SegLength(segp) == SegLength(segq);
    assert [segp][0] == segp && [segq][0] == segq;
  }

  /**
   A child drawn with other angles has the same shape: the angles only turn
   its segments. The two children are passed as `cp` and `cq`.
   */
  lemma {:induction false} ChildTurned(p: Params, q: Params, fp: seq<Op>, fq: seq<Op>, h: real,
                                       ap: real, aq: real, d: nat, cp: seq<Effect>, cq: seq<Effect>)
    requires q.thickness == p.thickness && q.heightFactor == p.heightFactor
    requires cp == Child(p, fp, h, ap, d) && cq == Child(q, fq, h, aq, d)
    ensures SameShape(fp, cp, fq, cq)
    decreases d, 1
  {
    var fp2 := fp + [Rotate(ap), Translate(0.0, -h)];
    var fq2 := fq + [Rotate(aq), Translate(0.0, -h)];
    var sp := Tree(p, fp2, h, d);
    var sq := Tree(q, fq2, h, d);
    var segp := Segment(fp + [Rotate(ap)], h, p.thickness);
    var segq := Segment(fq + [Rotate(aq)], h, q.thickness);
    ChildFrames(fp, ap, h);
    ChildFrames(fq, aq, h);
    SegmentTurned(fp, ap, fq, aq, h, p.thickness);
    TreeTurned(p, q, fp2, fq2, h, d, sp, sq);
    SameShapeRebase(fp, fp2, sp, fq, fq2, sq);
    SameShapeConcat(fp, [segp], sp, fq, [segq], sq);
  }

  /**
   A tree drawn with another branching angle and direction has the same
   shape: as many strokes, each at the same level with the same length.
   */
  lemma {:induction false} TreeTurned(p: Params, q: Params, fp: seq<Op>, fq: seq<Op>, len: real, d: nat,
                                      tp: seq<Effect>, tq: seq<Effect>)
    requires q.thickness == p.thickness && q.heightFactor == p.heightFactor
    requires tp == Tree(p, fp, len, d) && tq == Tree(q, fq, len, d)
    ensures SameShape(fp, tp, fq, tq)
    decreases d, 0
  {
    if d > 0 {
      var h := Decayed(len, p.heightFactor);
      var p1, p2 := Radians(p.degrees) + p.direction, -Radians(p.degrees) + p.direction;
      var q1, q2 := Radians(q.degrees) + q.direction, -Radians(q.degrees) + q.direction;
      var cp1, cp2 := Child(p, fp, h, p1, d - 1), Child(p, fp, h, p2, d - 1);
      var cq1, cq2 := Child(q, fq, h, q1, d - 1), Child(q, fq, h, q2, d - 1);
      ChildTurned(p, q, fp, fq, h, p1, q1, d - 1, cp1, cq1);
      ChildTurned(p, q, fp, fq, h, p2, q2, d - 1, cp2, cq2);
      TreeUnfold(p, fp, len, d);
      TreeUnfold(q, fq, len, d);
      SameShapeConcat(fp, cp1, cp2, fq, cq1, cq2);
    }
  }

  /**
   The two children of a branch: both have the decayed length, the first is
   turned by theta + direction and the second by -theta + direction, so the
   siblings diverge by twice the branching angle.
   */
  lemma SiblingsOf(p: Params, frame: seq<Op>, len: real, d: nat)
    requires d > 0
    ensures var t := Tree(p, frame, len, d);
      var theta := Radians(p.degrees);
      && |t| >= 2
      && t[0] == Segment(frame + [Rotate(theta + p.direction)], Decayed(len, p.heightFactor), p.thickness)
      && t[|t| / 2] == Segment(frame + [Rotate(-theta + p.direction)], Decayed(len, p.heightFactor), p.thickness)
      && Heading(SegFrame(t[0])) - Heading(SegFrame(t[|t| / 2])) == 2.0 * theta
  {
    var t := Tree(p, frame, len, d);
    var h := Decayed(len, p.heightFactor);
    var theta := Radians(p.degrees);
    var c1 := Child(p, frame, h, theta + p.direction, d - 1);
    var c2 := Child(p, frame, h, -theta + p.direction, d - 1);
    ChildSize(p, frame, h, theta + p.direction, d - 1);
    ChildSize(p, frame, h, -theta + p.direction, d - 1);
    TreeUnfold(p, frame, len, d);
    assert |c1| == |c2|;
    assert t[|t| / 2] == c2[0];
    RotationsAppend(frame, [Rotate(theta + p.direction)]);
    RotationsAppend(frame, [Rotate(-theta + p.direction)]);
    assert Heading([Rotate(theta + p.direction)]) == theta + p.direction;
    assert Heading([Rotate(-theta + p.direction)]) == -theta + p.direction;
  }

  /**
   The tree that grows below a branch of length `len` under threshold `thr`:
   every segment is longer than the threshold, segments on the same level have
   the same length, a deeper segment is strictly shorter, and every segment
   is shorter than the branch the tree grows from.
   */
  lemma GrownTreeLengths(p: Params, frame: seq<Op>, len: real, i: int, j: int)
    requires 0.0 < p.heightFactor < 1.0 && 0.0 < p.branching
    requires var t := Tree(p, frame, len, Depth(len, p.heightFactor, p.branching));
      0 <= i < |t| && 0 <= j < |t|
    ensures var t := Tree(p, frame, len, Depth(len, p.heightFactor, p.branching));
      && SegLength(t[i]) > p.branching
      && (Level(frame, t[i]) == Level(frame, t[j]) ==> SegLength(t[i]) == SegLength(t[j]))
      && (Level(frame, t[i]) < Level(frame, t[j]) ==> SegLength(t[j]) < SegLength(t[i]))
      && (0.0 < len ==> SegLength(t[i]) < len)
  {
    var hf, thr := p.heightFactor, p.branching;
    var d := Depth(len, hf, thr);
    var t := Tree(p, frame, len, d);
    TreeShape(p, frame, len, d);
    DepthSpec(len, hf, thr);
    var ki, kj := Level(frame, t[i]), Level(frame, t[j]);
    if ki < kj {
      DecayStrictlyDecreasing(len, hf, ki, kj);
    }
    if 0.0 < len {
      DecayStrictlyDecreasing(len, hf, 0, ki);
    }
  }

  /** One decay of a positive length keeps it positive and makes it strictly shorter. */
  lemma DecayedShrinks(a: real, hf: real)
    requires 0.0 < hf < 1.0 && 0.0 < a
    ensures 0.0 < Decayed(a, hf) < a
  {
    calc {
      Decayed(a, hf);
    == a * hf;
    <  a * 1.0;
    == a;
    }
  }

  /** While it is positive, a decayed length strictly shrinks with every further level. */
  lemma {:induction false} DecayStrictlyDecreasing(len: real, hf: real, k: nat, m: nat)
    requires 0.0 < hf < 1.0 && 0.0 < Decay(len, hf, k) && k < m
    ensures Decay(len, hf, m) < Decay(len, hf, k)
    decreases m - k
  {
    DecayStep(len, hf, k);
    var a := Decay(len, hf, k);
    DecayedShrinks(a, hf);
    if k + 1 < m {
      DecayStrictlyDecreasing(len, hf, k + 1, m);
    }
  }

  /** The length of the root segment: a quarter of the surface height. */
  function BranchLength(height: real): (r: real)
    ensures 0.0 < height ==> 0.0 < r < height
  {
    height / 4.0
  }

  /** The transform under which the root segment is drawn: bottom-centre, turned by the direction. */
  function RootFrame(p: Params, width: real, height: real): (r: seq<Op>)
    ensures Rotations(r) == 1 && Heading(r) == p.direction
  {
    var r := [Translate(width / 2.0, height), Rotate(p.direction)];
    assert r[..1] == [Translate(width / 2.0, height)] && r[..1][..0] == [];
    assert Rotations(r[..1]) == 0 && Heading(r[..1]) == 0.0;
    r
  }

  /** The transform at the far end of the root segment, where the recursion starts. */
  function TipFrame(p: Params, width: real, height: real): (r: seq<Op>)
    ensures RootFrame(p, width, height) <= r
    ensures Rotations(r) == 1 && Heading(r) == p.direction
  {
    RootFrame(p, width, height) + [Translate(0.0, -BranchLength(height))]
  }

  /**
   Everything one render puts on the surface: clear and white-fill the whole
   surface under the identity transform, stroke the root segment, then the tree.
   */
  ghost function Render(p: Params, width: real, height: real): (r: seq<Effect>)
    requires 0.0 < p.heightFactor < 1.0 && 0.0 < p.branching
  {
    var len := BranchLength(height);
    [ ClearRect([], 0.0, 0.0, width, height),
      FillRect([], White, 0.0, 0.0, width, height),
      Segment(RootFrame(p, width, height), len, p.thickness) ]
    + Tree(p, TipFrame(p, width, height), len, Depth(len, p.heightFactor, p.branching))
  }

  /** A render grows the tree to the depth that any sufficient level bound `n` finds. */
  lemma RenderUnfold(p: Params, width: real, height: real, n: nat)
    requires 0.0 < p.heightFactor < 1.0 && 0.0 < p.branching
    requires Decay(BranchLength(height), p.heightFactor, n) <= p.branching
    ensures Render(p, width, height)
      == [ ClearRect([], 0.0, 0.0, width, height),
           FillRect([], White, 0.0, 0.0, width, height),
           Segment(RootFrame(p, width, height), BranchLength(height), p.thickness) ]
         + Tree(p, TipFrame(p, width, height), BranchLength(height),
                Levels(BranchLength(height), p.heightFactor, p.branching, n))
  {
    LevelsIsDepth(BranchLength(height), p.heightFactor, p.branching, n);
  }

  /** The number of segments a render strokes: 1 root plus 2^k for every grown level k. */
  ghost function SegmentCount(p: Params, height: real): nat
    requires 0.0 < p.heightFactor < 1.0 && 0.0 < p.branching
  {
    2 * Pow2(Depth(BranchLength(height), p.heightFactor, p.branching)) - 1
  }

  lemma RenderShape(p: Params, width: real, height: real)
    requires 0.0 < p.heightFactor < 1.0 && 0.0 < p.branching
    ensures var r := Render(p, width, height);
      && |r| == 2 + SegmentCount(p, height)
      && r[2] == Segment(RootFrame(p, width, height), height / 4.0, p.thickness)
      && (forall i :: 2 <= i < |r| ==> IsSegment(r[i], p.thickness))
      && (forall i :: 3 <= i < |r| ==> SegLength(r[i]) > p.branching)
  {
    var len := BranchLength(height);
    var d := Depth(len, p.heightFactor, p.branching);
    var t := Tree(p, TipFrame(p, width, height), len, d);
    TreeShape(p, TipFrame(p, width, height), len, d);
    var r := Render(p, width, height);
    forall i | 3 <= i < |r|
      ensures IsSegment(r[i], p.thickness) && SegLength(r[i]) > p.branching
    {
      assert r[i] == t[i - 3];
      GrownTreeLengths(p, TipFrame(p, width, height), len, i - 3, i - 3);
    }
  }

  lemma {:induction false} Pow2Monotone(a: nat, b: nat)
    requires a <= b
    ensures Pow2(a) <= Pow2(b)
    decreases b
  {
    if a < b {
      Pow2Monotone(a, b - 1);
    }
  }

  /** Raising the threshold never increases the number of segments drawn. */
  lemma CountAntitone(p: Params, height: real, thr1: real, thr2: real)
    requires 0.0 < p.heightFactor < 1.0 && 0.0 < thr1 <= thr2
    ensures SegmentCount(p.(branching := thr2), height) <= SegmentCount(p.(branching := thr1), height)
  {
    var len := BranchLength(height);
    DepthAntitone(len, p.heightFactor, thr1, thr2);
    Pow2Monotone(Depth(len, p.heightFactor, thr2), Depth(len, p.heightFactor, thr1));
  }

  /**
   In terms of the branching slider: moving it up lowers the threshold, so a
   larger slider value never draws fewer segments.
   */
  lemma SliderCountMonotone(p: Params, height: real, v1: real, v2: real)
    requires 0.0 < p.heightFactor < 1.0 && v1 <= v2 < 10.0
    ensures SegmentCount(p.(branching := ThresholdOf(v1)), height)
         <= SegmentCount(p.(branching := ThresholdOf(v2)), height)
  {
    CountAntitone(p, height, ThresholdOf(v2), ThresholdOf(v1));
  }

  /**
   The branching angle and the direction only turn segments. A render with
   other values clears and fills the same, strokes as many segments, and each
   one lies at the same depth of rotation with the same length.
   */
  lemma AngleKeepsShape(p: Params, width: real, height: real, degrees: real, direction: real)
    requires 0.0 < p.heightFactor < 1.0 && 0.0 < p.branching
    ensures var rp := Render(p, width, height);
      var rq := Render(p.(degrees := degrees, direction := direction), width, height);
      && |rq| == |rp|
      && rq[..2] == rp[..2]
      && SameShape([], rp[2..], [], rq[2..])
  {
    var q := p.(degrees := degrees, direction := direction);
    var len := BranchLength(height);
    var d := Depth(len, p.heightFactor, p.branching);
    var fp, fq := TipFrame(p, width, height), TipFrame(q, width, height);
    var tp, tq := Tree(p, fp, len, d), Tree(q, fq, len, d);
    var rootp := Segment(RootFrame(p, width, height), len, p.thickness);
    var rootq := Segment(RootFrame(q, width, height), len, q.thickness);
    var rp := Render(p, width, height);
    var rq := Render(q, width, height);
    assert rp[2..] == [rootp] + tp;
    assert rq[2..] == [rootq] + tq;
    assert SameShape([], [rootp], [], [rootq]);
    TreeTurned(p, q, fp, fq, len, d, tp, tq);
    SameShapeRebase([], fp, tp, [], fq, tq);
    SameShapeConcat([], [rootp], tp, [], [rootq], tq);
  }

  /**
   With the defaults on an 800 by 600 surface the root is 150 long, drawn from
   (400, 600) under `Rotate(0.0)`, and its tip is one `Translate(0, -150)` past it.
   */
  lemma DefaultRootExample()
    ensures var r := Render(Defaults(), 800.0, 600.0);
      && r[2] == Segment([Translate(400.0, 600.0), Rotate(0.0)], 150.0, 1.0)
      && TipFrame(Defaults(), 800.0, 600.0) == [Translate(400.0, 600.0), Rotate(0.0), Translate(0.0, -150.0)]
  {
    var n := DecayReaches(BranchLength(600.0), Defaults().heightFactor, Defaults().branching);
    RenderUnfold(Defaults(), 800.0, 600.0, n);
  }
}
