/**
 * The AR screen: the level-of-detail rule of each AR marker, the layout of
 * the AR markers in front of the camera, the compass heading and the label of
 * a far marker. Camera distance and `Math.sin` come from the host's
 * floating-point library and are taken from a `MathHost`.
 */
module ARView {
  import opened Types
  import opened Geometry
  import opened Text

  /** Beyond this camera distance a marker shows its beacon instead of its card. */
  const FarDistance: real := 12.0

  /** The two representations of a marker; `{!isFar && …}` and `{isFar && …}` in the markup. */
  datatype Representation = DetailCard | Beacon

  /**
   * One AR marker with its per-frame state. The marker is keyed by its
   * place, so it survives a re-render; its `position` follows the prop.
   */
  class ARMarker {
    const place: Place
    var position: Vec3
    var distance: real
    var isFar: bool
    var scale: Vec3

    /** A marker starts at distance 0 in the far tier, at unit scale. */
    constructor (place: Place, position: Vec3)
      ensures this.place == place && this.position == position
      ensures distance == 0.0 && isFar && scale == UnitScale
      ensures Shown() == [Beacon]
    {
      this.place := place;
      this.position := position;
      distance := 0.0;
      isFar := true;
      scale := UnitScale;
    }

    /** The children the marker renders in its current tier. */
    function Shown(): (r: seq<Representation>)
      reads this
      ensures |r| == 1
      ensures r[0] == DetailCard <==> !isFar
      ensures r[0] == Beacon <==> isFar
    {
      (if !isFar then [DetailCard] else []) + (if isFar then [Beacon] else [])
    }

    /**
     * A re-render with a new `position` prop, as when the simulator slider
     * moves the layout: the group moves and the per-frame state is kept
     * until the next frame.
     */
    method SetPosition(p: Vec3)
      modifies this
      ensures position == p
      ensures distance == old(distance) && isFar == old(isFar) && scale == old(scale)
      ensures Shown() == old(Shown())
    {
      position := p;
    }

    /**
     * The `useFrame` callback. Nothing happens before the group is mounted.
     * Otherwise the camera distance to the group's current position is recorded, the tier becomes far exactly
     * beyond 12, and the scale is reset to 1 in both branches of the test of
     * the previous tier.
     */
    method Frame(h: MathHost, camera: Vec3, mounted: bool)
      modifies this
      ensures position == old(position)
      ensures !mounted ==> distance == old(distance) && isFar == old(isFar) && scale == old(scale)
      ensures mounted ==> distance == h.distance(camera, position)
      ensures mounted ==> (isFar <==> distance > FarDistance)
      ensures mounted ==> scale == UnitScale
      ensures mounted ==> Shown() == (if h.distance(camera, position) > FarDistance then [Beacon] else [DetailCard])
    {
      if mounted {
        var dist := h.distance(camera, position);
        var wasFar := isFar;
        distance := dist;
        isFar := dist > FarDistance;
        if !wasFar {
          scale := UnitScale;
        } else {
          scale := UnitScale;
        }
      }
    }
  }

  // ---------------------------------------------------------------------------
  // Layout of the AR markers
  // ---------------------------------------------------------------------------

  /** A place with the position of its AR marker (`{...place, position}`). */
  datatype ArPlace = ArPlace(place: Place, position: Vec3)

  /** The distance of marker `i` along its bearing, before the simulator offset. */
  function BaseRadius(i: nat): real {
    10.0 + 5.0 * i as real
  }

  /** The bearing of marker `i` of `n`, in radians. */
  function Bearing(i: nat, n: nat): real
    requires n > 0
  {
    i as real * (Pi * 2.0) / n as real
  }

  function MarkerPositionAt(h: MathHost, i: nat, n: nat, simulatedDistance: real): Vec3
    requires n > 0
  {
    var r := BaseRadius(i);
    Vec3(h.sin(Bearing(i, n)) * r, 0.0, simulatedDistance - r)
  }

  /** The `arPlaces` memo: one marker per place, in order, at its layout position. */
  function ArLayout(h: MathHost, places: seq<Place>, simulatedDistance: real): (r: seq<ArPlace>)
    ensures |r| == |places|
    ensures forall i :: 0 <= i < |r| ==> r[i].place == places[i]
  {
    seq(|places|, i requires 0 <= i < |places| => ArPlace(places[i], MarkerPositionAt(h, i, |places|, simulatedDistance)))
  }

  /** Later markers stand strictly further out and strictly further back along z. */
  lemma LayoutRadiiIncrease(h: MathHost, places: seq<Place>, simulatedDistance: real, i: nat, j: nat)
    requires i < j < |places|
    ensures BaseRadius(i) < BaseRadius(j)
    ensures ArLayout(h, places, simulatedDistance)[j].position.z < ArLayout(h, places, simulatedDistance)[i].position.z
  {
  }

  /** Every marker stands on the camera's plane, `BaseRadius(i)` behind the simulator offset. */
  lemma LayoutOnPlane(h: MathHost, places: seq<Place>, simulatedDistance: real)
    ensures forall i :: 0 <= i < |places| ==>
      && ArLayout(h, places, simulatedDistance)[i].position.y == 0.0
      && ArLayout(h, places, simulatedDistance)[i].position.z + BaseRadius(i) == simulatedDistance
  {
  }

  /** The bearings divide the full turn evenly, starting straight ahead. */
  lemma BearingsSpanTurn(i: nat, n: nat)
    requires i < n
    ensures Bearing(0, n) == 0.0
    ensures 0.0 <= Bearing(i, n) < 2.0 * Pi
    ensures i + 1 < n ==> Bearing(i + 1, n) - Bearing(i, n) == 2.0 * Pi / n as real
  {
    assert i as real / n as real < 1.0;
    assert Bearing(i, n) == (i as real / n as real) * (2.0 * Pi);
  }

  /** With a sine bounded by one, marker `i` stands at most its base radius to the side. */
  lemma LayoutLateralBound(h: MathHost, places: seq<Place>, simulatedDistance: real, i: nat)
    requires i < |places|
    requires -1.0 <= h.sin(Bearing(i, |places|)) <= 1.0
    ensures -BaseRadius(i) <= ArLayout(h, places, simulatedDistance)[i].position.x <= BaseRadius(i)
  {
    var s := h.sin(Bearing(i, |places|));
    var r := BaseRadius(i);
    assert ArLayout(h, places, simulatedDistance)[i].position.x == s * r;
    assert r > 0.0;
    assert -r <= s * r <= r by {
      assert (s + 1.0) * r >= 0.0;
      assert (1.0 - s) * r >= 0.0;
    }
  }

  /** Moving the simulator slider shifts every marker along z by the same amount and nothing else. */
  lemma SliderShiftsAlongZ(h: MathHost, places: seq<Place>, d1: real, d2: real, i: nat)
    requires i < |places|
    ensures var p1 := ArLayout(h, places, d1)[i].position;
            var p2 := ArLayout(h, places, d2)[i].position;
            p2.x == p1.x && p2.y == p1.y && p2.z - p1.z == d2 - d1
  {
  }

  // ---------------------------------------------------------------------------
  // Compass
  // ---------------------------------------------------------------------------

  /**
   * The `CompassController` frame: the heading in degrees from `atan2`,
   * brought into [0, 360), its offset as a percentage of the strip, and the
   * strip shift in pixels (at 20 px per percent).
   */
  method CompassHeading(rawDegrees: real) returns (degrees: real, xOffset: real, shiftPx: real)
    ensures degrees == rawDegrees || degrees == rawDegrees + 360.0
    ensures -360.0 <= rawDegrees < 360.0 ==> 0.0 <= degrees < 360.0
    ensures rawDegrees >= 0.0 ==> degrees == rawDegrees
    ensures xOffset * 360.0 == degrees * 100.0
    ensures shiftPx == xOffset * 20.0
    ensures 0.0 <= degrees < 360.0 ==> 0.0 <= xOffset < 100.0 && 0.0 <= shiftPx < 2000.0
  {
    degrees := rawDegrees;
    if degrees < 0.0 {
      degrees := degrees + 360.0;
    }
    xOffset := (degrees / 360.0) * 100.0;
    shiftPx := xOffset * 20.0;
  }

  // ---------------------------------------------------------------------------
  // Far label
  // ---------------------------------------------------------------------------

  function Min(a: int, b: int): int { if a <= b then a else b }

  /** `name.toUpperCase().slice(0, 12)` followed by "...". */
  function FarLabel(name: string): (r: string)
    ensures |r| == Min(12, |name|) + 3
    ensures r[|r| - 3..] == "..."
    ensures forall i :: 0 <= i < Min(12, |name|) ==> r[i] == UpperChar(name[i])
  {
    ToUpper(name)[..Min(12, |name|)] + "..."
  }

  /** A name of at most 12 characters is shown whole. */
  lemma ShortNameShownWhole(name: string)
    requires |name| <= 12
    ensures FarLabel(name) == ToUpper(name) + "..."
  {
    WholePrefix(ToUpper(name), Min(12, |name|));
  }

  lemma WholePrefix(u: string, k: int)
    requires k == |u|
    ensures u[..k] == u
  {
  }

  /** Only the first 12 characters of a longer name reach the label. */
  lemma LabelIgnoresTail(name: string, tail: string)
    requires |name| >= 12
    ensures FarLabel(name + tail) == FarLabel(name)
  {
    var a := FarLabel(name + tail);
    var b := FarLabel(name);
    assert |a| == |b|;
    forall i | 0 <= i < |a| ensures a[i] == b[i] {
      if i < 12 {
        assert (name + tail)[i] == name[i];
      } else {
        assert a[i] == a[|a| - 3..][i - 12] == b[|b| - 3..][i - 12] == b[i];
      }
    }
  }

  /** Uppercasing the name first does not change the label. */
  lemma LabelOfUppercased(name: string)
    ensures FarLabel(ToUpper(name)) == FarLabel(name)
  {
    var a := FarLabel(ToUpper(name));
    var b := FarLabel(name);
    var n := Min(12, |name|);
    forall i | 0 <= i < |a| ensures a[i] == b[i] {
      if i < n {
        assert a[i] == UpperChar(UpperChar(name[i]));
      } else {
        assert a[i] == a[|a| - 3..][i - n] == b[|b| - 3..][i - n] == b[i];
      }
    }
  }

  /** `Math.round` on a non-negative distance: the nearest integer, halves rounded up. */
  function Round(d: real): (r: int)
    requires d >= 0.0
    ensures r >= 0
    ensures d - 0.5 < r as real <= d + 0.5
  {
    (d + 0.5).Floor
  }

  /** The distance line under a far label, such as "17m". */
  function DistanceLabel(d: real): (r: string)
    requires d >= 0.0
    ensures |r| >= 2 && r[|r| - 1] == 'm'
    ensures forall i :: 0 <= i < |r| - 1 ==> IsDigit(r[i])
    ensures DigitsValue(r[..|r| - 1]) == Round(d)
    ensures r[0] == '0' ==> |r| == 2
  {
    var n := Round(d);
    DecimalRoundTrip(n);
    assert (Decimal(n) + "m")[..|Decimal(n)|] == Decimal(n);
    Decimal(n) + "m"
  }
}
