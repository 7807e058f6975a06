/**
 The five user-adjustable drawing parameters, their defaults, the mapping from
 slider values to stored values, and the reset operations.
 */
module Controls {

  const DefaultLineThickness: real := 1.0
  const DefaultDegrees: real := 25.0
  const DefaultHeightFactor: real := 0.66
  /** The default position of the branching slider (not the stored threshold). */
  const DefaultBranching: real := 8.0

  /** The value of `Math.PI`; only its positivity is used below. */
  const Pi: real := 3.141592653589793

  /** Degrees to radians. */
  function Radians(degrees: real): (r: real)
    ensures r * 180.0 == degrees * Pi
    ensures (r < 0.0 <==> degrees < 0.0) && (r == 0.0 <==> degrees == 0.0)
  {
    degrees * Pi / 180.0
  }

  /** Radians to degrees, the inverse of `Radians`. */
  function Degrees(radians: real): real
  {
    radians * 180.0 / Pi
  }

  lemma RadiansRoundTrip(d: real, r: real)
    ensures Degrees(Radians(d)) == d
    ensures Radians(Degrees(r)) == r
  {
  }

  lemma RadiansMonotone(d1: real, d2: real)
    ensures d1 < d2 <==> Radians(d1) < Radians(d2)
  {
  }

  /**
   The branching slider is stored inverted: a slider value `v` sets the minimum
   branch length to `10 - v`, so a larger slider value lets more levels grow.
   */
  function ThresholdOf(slider: real): (threshold: real)
    ensures threshold + slider == 10.0
  {
    10.0 - slider
  }

  /** The slider value that yields a given threshold. */
  function SliderOf(threshold: real): real
  {
    10.0 - threshold
  }

  lemma ThresholdRoundTrip(v: real, t: real)
    ensures SliderOf(ThresholdOf(v)) == v
    ensures ThresholdOf(SliderOf(t)) == t
  {
  }

  lemma ThresholdAntitone(v1: real, v2: real)
    ensures v1 <= v2 <==> ThresholdOf(v2) <= ThresholdOf(v1)
  {
  }

  /** A snapshot of the five parameters as the renderer reads them. */
  datatype Params = Params(
    thickness: real,
    degrees: real,      // branching angle, in degrees
    heightFactor: real, // decay applied to the branch length at every level
    branching: real,    // minimum branch length (already inverted from the slider)
    direction: real     // root direction, in radians
  )

  /** The parameters at page load and after every reset. */
  function Defaults(): (p: Params)
    ensures p.thickness == 1.0 && p.degrees == 25.0 && p.heightFactor == 0.66
    ensures p.branching == 2.0 && p.direction == 0.0
  {
    Params(DefaultLineThickness, DefaultDegrees, DefaultHeightFactor,
           ThresholdOf(DefaultBranching), Radians(0.0))
  }

  /** The module-level parameter variables, which the input handlers overwrite. */
  class Settings {
    var thickness: real
    var degrees: real
    var heightFactor: real
    var branching: real
    var direction: real

    function Current(): Params
      reads this
    {
      Params(thickness, degrees, heightFactor, branching, direction)
    }

    /** The initial values of the five variables. */
    constructor ()
      ensures Current() == Defaults()
    {
      thickness := DefaultLineThickness;
      degrees := DefaultDegrees;
      heightFactor := DefaultHeightFactor;
      branching := 10.0 - DefaultBranching;
      direction := Radians(0.0);
    }

    method OnThicknessInput(value: real)
      modifies this
      ensures Current() == old(Current()).(thickness := value)
    {
      thickness := value;
    }

    method OnDegreesInput(value: real)
      modifies this
      ensures Current() == old(Current()).(degrees := value)
    {
      degrees := value;
    }

    method OnHeightInput(value: real)
      modifies this
      ensures Current() == old(Current()).(heightFactor := value)
    {
      heightFactor := value;
    }

    method OnBranchingInput(value: real)
      modifies this
      ensures Current() == old(Current()).(branching := ThresholdOf(value))
      ensures branching + value == 10.0
    {
      branching := 10.0 - value;
    }

    method OnDirectionInput(value: real)
      modifies this
      ensures Current() == old(Current()).(direction := Radians(value))
    {
      direction := Radians(value);
    }

    method ResetThickness()
      modifies this
      ensures Current() == old(Current()).(thickness := Defaults().thickness)
    {
      thickness := DefaultLineThickness;
    }

    method ResetDegrees()
      modifies this
      ensures Current() == old(Current()).(degrees := Defaults().degrees)
    {
      degrees := DefaultDegrees;
    }

    method ResetHeight()
      modifies this
      ensures Current() == old(Current()).(heightFactor := Defaults().heightFactor)
    {
      heightFactor := DefaultHeightFactor;
    }

    method ResetBranching()
      modifies this
      ensures Current() == old(Current()).(branching := Defaults().branching)
    {
      branching := 10.0 - DefaultBranching;
    }

    method ResetDirection()
      modifies this
      ensures Current() == old(Current()).(direction := Defaults().direction)
    {
      direction := Radians(0.0);
    }

    /** The five resets in turn, as the reset-all button does before redrawing. */
    method ResetAll()
      modifies this
      ensures Current() == Defaults()
    {
      ResetThickness();
      ResetDegrees();
      ResetHeight();
      ResetBranching();
      ResetDirection();
    }
  }
}
