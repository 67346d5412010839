/**
 * The globe of the map tab: the latitude/longitude projection, the greedy
 * proximity clustering of places into markers, and the mapping of markers to
 * pins and cluster badges with their selection and click behaviour.
 */
module HolographicGlobe {
  import opened Types
  import opened Geometry

  // ---------------------------------------------------------------------------
  // Projection (`calcPosFromLatLonRad`)
  // ---------------------------------------------------------------------------

  /** The polar angle, in radians, of a latitude in degrees. */
  function PolarAngle(lat: real): real { (90.0 - lat) * (Pi / 180.0) }

  /** The azimuth, in radians, of a longitude in degrees, turned by half a circle. */
  function Azimuth(lon: real): real { (lon + 180.0) * (Pi / 180.0) }

  /**
   * Spherical parametrisation of (lat, lon) on a sphere of the given radius:
   * the point lies in the meridian plane of its longitude and its height
   * depends on the latitude alone.
   */
  function Project(h: MathHost, lat: real, lon: real, radius: real): (r: Vec3)
    ensures r.x * h.sin(Azimuth(lon)) + r.z * h.cos(Azimuth(lon)) == 0.0
    ensures r.y == radius * h.cos(PolarAngle(lat))
  {
    var phi := PolarAngle(lat);
    var theta := Azimuth(lon);
    var w := radius * h.sin(phi);
    var c, sn := h.cos(theta), h.sin(theta);
    assert -(w * c) * sn + w * sn * c == 0.0;
    Vec3(-(radius * h.sin(phi) * h.cos(theta)),
         radius * h.cos(phi),
         radius * h.sin(phi) * h.sin(theta))
  }

  /** The projected point's distance from the polar axis is `radius·sin phi`,
      scaled by the host's `cos² + sin²` at the azimuth. */
  lemma ProjectAxisDistance(h: MathHost, lat: real, lon: real, radius: real)
    ensures var r := Project(h, lat, lon, radius);
      var w := radius * h.sin(PolarAngle(lat));
      var c, sn := h.cos(Azimuth(lon)), h.sin(Azimuth(lon));
      r.x * r.x + r.z * r.z == w * w * (c * c + sn * sn)
  {
    var w := radius * h.sin(PolarAngle(lat));
    var c, sn := h.cos(Azimuth(lon)), h.sin(Azimuth(lon));
    assert (w * c) * (w * c) + (w * sn) * (w * sn) == w * w * (c * c + sn * sn);
  }

  /** When the host's sine and cosine satisfy the Pythagorean identity at the two
      angles, the projected point lies on the sphere of the given radius. */
  lemma ProjectOnSphere(h: MathHost, lat: real, lon: real, radius: real)
    requires h.sin(PolarAngle(lat)) * h.sin(PolarAngle(lat)) + h.cos(PolarAngle(lat)) * h.cos(PolarAngle(lat)) == 1.0
    requires h.sin(Azimuth(lon)) * h.sin(Azimuth(lon)) + h.cos(Azimuth(lon)) * h.cos(Azimuth(lon)) == 1.0
    ensures Norm2(Project(h, lat, lon, radius)) == radius * radius
  {
    var s, c := h.sin(PolarAngle(lat)), h.cos(PolarAngle(lat));
    var p := Project(h, lat, lon, radius);
    var rr := radius * radius;
    var w := radius * s;
    ProjectAxisDistance(h, lat, lon, radius);
    assert p.x * p.x + p.z * p.z == w * w;
    assert p.y * p.y == rr * (c * c);
    calc {
      Norm2(p);
      w * w + rr * (c * c);
      rr * (s * s + c * c);
      rr;
    }
  }

  /** Moving half way round in longitude mirrors x and z and keeps the height y,
      whenever the host's sine and cosine change sign over half a turn. */
  lemma ProjectHalfTurn(h: MathHost, lat: real, lon: real, radius: real)
    requires h.sin(Azimuth(lon) + Pi) == -h.sin(Azimuth(lon))
    requires h.cos(Azimuth(lon) + Pi) == -h.cos(Azimuth(lon))
    ensures Project(h, lat, lon + 180.0, radius).x == -Project(h, lat, lon, radius).x
    ensures Project(h, lat, lon + 180.0, radius).y == Project(h, lat, lon, radius).y
    ensures Project(h, lat, lon + 180.0, radius).z == -Project(h, lat, lon, radius).z
  {
    assert Azimuth(lon + 180.0) == Azimuth(lon) + Pi;
    var s := h.sin(PolarAngle(lat));
    var st, ct := h.sin(Azimuth(lon)), h.cos(Azimuth(lon));
    assert radius * s * (-ct) == -(radius * s * ct);
    assert radius * s * (-st) == -(radius * s * st);
  }

  /** At the north pole every longitude projects to the same point: the
      projected embedding merges longitudes there. */
  lemma ProjectNorthPole(h: MathHost, lon1: real, lon2: real, radius: real)
    requires h.sin(0.0) == 0.0 && h.cos(0.0) == 1.0
    ensures Project(h, 90.0, lon1, radius) == Project(h, 90.0, lon2, radius) == Vec3(0.0, radius, 0.0)
  {
    assert PolarAngle(90.0) == 0.0;
  }

  // ---------------------------------------------------------------------------
  // Markers
  // ---------------------------------------------------------------------------

  /** `CLUSTER_THRESHOLD`, in projected units. */
  const ClusterThreshold: real := 0.15

  /** Markers sit slightly above the globe's surface (radius 2). */
  const MarkerRadius: real := 2.05

  /** `MarkerData`: a `SingleData` or a `ClusterData`. */
  datatype Marker =
    | Single(id: string, position: Vec3, place: Place)
    | Cluster(id: string, position: Vec3, places: seq<Place>)

  function Members(m: Marker): seq<Place> {
    match m
    case Single(_, _, p) => [p]
    case Cluster(_, _, ps) => ps
  }

  function MarkerPosition(h: MathHost, p: Place): Vec3 {
    Project(h, p.coordinates.lat, p.coordinates.lng, MarkerRadius)
  }

  /** The merge test: the distance from the seed's position to the candidate's
      position is strictly below the threshold. */
  predicate WithinThreshold(h: MathHost, seed: Place, other: Place) {
    h.distance(MarkerPosition(h, seed), MarkerPosition(h, other)) < ClusterThreshold
  }

  /** The marker emitted for a finished group whose first member is `seed`. */
  function GroupMarker(h: MathHost, seed: Place, group: seq<Place>): Marker {
    if |group| > 1 then Cluster("cluster-" + seed.id, MarkerPosition(h, seed), group)
    else Single(seed.id, MarkerPosition(h, seed), seed)
  }

  // ---------------------------------------------------------------------------
  // The clustering pass, as functions of the loop state
  // ---------------------------------------------------------------------------

  /** The state of the inner scan: the processed id set and the group so far. */
  datatype Scan = Scan(processed: set<string>, group: seq<Place>)

  /** The inner scan over `places[j..]` for the group of `seed`. */
  function Absorb(h: MathHost, places: seq<Place>, seed: Place, j: nat, acc: Scan): Scan
    requires j <= |places|
    decreases |places| - j
  {
    if j == |places| then acc
    else
      var other := places[j];
      if seed.id == other.id || other.id in acc.processed then
        Absorb(h, places, seed, j + 1, acc)
      else if WithinThreshold(h, seed, other) then
        Absorb(h, places, seed, j + 1, Scan(acc.processed + {other.id}, acc.group + [other]))
      else
        Absorb(h, places, seed, j + 1, acc)
  }

  /** The outer pass over `places[i..]`, given the processed ids and markers so far. */
  function Sweep(h: MathHost, places: seq<Place>, i: nat, processed: set<string>, result: seq<Marker>): seq<Marker>
    requires i <= |places|
    decreases |places| - i
  {
    if i == |places| then result
    else
      var place := places[i];
      if place.id in processed then
        Sweep(h, places, i + 1, processed, result)
      else
        var s := Absorb(h, places, place, 0, Scan(processed + {place.id}, [place]));
        Sweep(h, places, i + 1, s.processed, result + [GroupMarker(h, place, s.group)])
  }

  /** The markers of the globe for a list of places. */
  function Markers(h: MathHost, places: seq<Place>): seq<Marker> {
    Sweep(h, places, 0, {}, [])
  }

  /** The clustering `useMemo` of the globe scene. */
  method ClusterMarkers(h: MathHost, places: seq<Place>) returns (markers: seq<Marker>)
    ensures markers == Markers(h, places)
    ensures IsMarkerPartition(h, places, markers)
  {
    var result: seq<Marker> := [];
    var processed: set<string> := {};
    var i := 0;
    while i < |places|
      invariant i <= |places|
      invariant Sweep(h, places, i, processed, result) == Markers(h, places)
    {
      var place := places[i];
      if place.id !in processed {
        var p1Pos := Project(h, place.coordinates.lat, place.coordinates.lng, MarkerRadius);
        var clusterGroup := [place];
        processed := processed + {place.id};
        ghost var start := Scan(processed, clusterGroup);
        var j := 0;
        while j < |places|
          invariant j <= |places|
          invariant Absorb(h, places, place, j, Scan(processed, clusterGroup)) == Absorb(h, places, place, 0, start)
        {
          var other := places[j];
          if !(place.id == other.id || other.id in processed) {
            var p2Pos := Project(h, other.coordinates.lat, other.coordinates.lng, MarkerRadius);
            var dist := h.distance(p1Pos, p2Pos);
            if dist < ClusterThreshold {
              clusterGroup := clusterGroup + [other];
              processed := processed + {other.id};
            }
          }
          j := j + 1;
        }
        if |clusterGroup| > 1 {
          result := result + [Cluster("cluster-" + place.id, p1Pos, clusterGroup)];
        } else {
          result := result + [Single(place.id, p1Pos, place)];
        }
      }
      i := i + 1;
    }
    markers := result;
    MarkersPartition(h, places);
  }

  // ---------------------------------------------------------------------------
  // What the pass guarantees for every input
  // ---------------------------------------------------------------------------

  function IdSet(s: seq<Place>): set<string> {
    set p | p in s :: p.id
  }

  predicate DistinctIds(s: seq<Place>) {
    forall a, b :: 0 <= a < b < |s| ==> s[a].id != s[b].id
  }

  /** All members of all markers, in marker order. */
  function Flatten(ms: seq<Marker>): seq<Place> {
    if ms == [] then [] else Members(ms[0]) + Flatten(ms[1..])
  }

  /** The shape of one emitted marker: kind follows size, the seed comes first
      and gives the id and the position, and every other member is within the
      threshold of the seed and has another id. */
  predicate WellFormed(h: MathHost, m: Marker) {
    var g := Members(m);
    && |g| >= 1
    && (m.Single? <==> |g| == 1)
    && m.position == MarkerPosition(h, g[0])
    && m.id == (if m.Single? then g[0].id else "cluster-" + g[0].id)
    && forall k :: 1 <= k < |g| ==> g[k].id != g[0].id && WithinThreshold(h, g[0], g[k])
  }

  /** The markers partition the input's ids: no id twice, none missing, no place invented. */
  predicate IsMarkerPartition(h: MathHost, places: seq<Place>, ms: seq<Marker>) {
    && (forall m :: m in ms ==> WellFormed(h, m))
    && |ms| <= |places|
    && DistinctIds(Flatten(ms))
    && IdSet(Flatten(ms)) == IdSet(places)
    && (forall q :: q in Flatten(ms) ==> q in places)
  }

  lemma IdSetAppend(a: seq<Place>, b: seq<Place>)
    ensures IdSet(a + b) == IdSet(a) + IdSet(b)
  {
    forall id | id in IdSet(a + b) ensures id in IdSet(a) + IdSet(b) {
      var p :| p in a + b && p.id == id;
    }
    forall id | id in IdSet(a) + IdSet(b) ensures id in IdSet(a + b) {
      if id in IdSet(a) {
        var p :| p in a && p.id == id;
        assert p in a + b;
      } else {
        var p :| p in b && p.id == id;
        assert p in a + b;
      }
    }
  }

  lemma DistinctIdsAppend(a: seq<Place>, b: seq<Place>)
    ensures DistinctIds(a + b) <==> DistinctIds(a) && DistinctIds(b) && IdSet(a) !! IdSet(b)
  {
    var ab := a + b;
    if DistinctIds(ab) {
      forall x, y | 0 <= x < |b| && 0 <= y < |b| && x < y ensures b[x].id != b[y].id {
        assert ab[|a| + x] == b[x] && ab[|a| + y] == b[y];
      }
      forall id | id in IdSet(a) ensures id !in IdSet(b) {
        var p :| p in a && p.id == id;
        var x :| 0 <= x < |a| && a[x] == p;
        forall y | 0 <= y < |b| ensures b[y].id != id {
          assert ab[x] == a[x] && ab[|a| + y] == b[y];
        }
      }
      assert forall x, y :: 0 <= x < y < |a| ==> ab[x] == a[x] && ab[y] == a[y];
    }
    if DistinctIds(a) && DistinctIds(b) && IdSet(a) !! IdSet(b) {
      forall x, y | 0 <= x < y < |ab| ensures ab[x].id != ab[y].id {
        if y < |a| {
          assert ab[x] == a[x] && ab[y] == a[y];
        } else if x >= |a| {
          assert ab[x] == b[x - |a|] && ab[y] == b[y - |a|];
        } else {
          assert ab[x] == a[x] && ab[y] == b[y - |a|];
          assert ab[x].id in IdSet(a) && ab[y].id in IdSet(b);
        }
      }
    }
  }

  lemma {:induction false} FlattenAppend(a: seq<Marker>, b: seq<Marker>)
    ensures Flatten(a + b) == Flatten(a) + Flatten(b)
  {
    if a == [] {
      assert a + b == b;
    } else {
      assert (a + b)[1..] == a[1..] + b;
      FlattenAppend(a[1..], b);
    }
  }

  /** The invariant of the inner scan for the group of `seed`, where `before`
      is the processed set before the seed was taken. */
  ghost predicate GroupInv(h: MathHost, places: seq<Place>, seed: Place, before: set<string>, s: Scan) {
    var g := s.group;
    && |g| >= 1 && g[0] == seed
    && (forall k :: 1 <= k < |g| ==> g[k].id != seed.id && WithinThreshold(h, seed, g[k]))
    && DistinctIds(g)
    && IdSet(g) !! before
    && s.processed == before + IdSet(g)
    && (forall q :: q in g ==> q in places)
  }

  lemma {:induction false} AbsorbKeeps(h: MathHost, places: seq<Place>, seed: Place, before: set<string>, j: nat, s: Scan)
    requires j <= |places|
    requires GroupInv(h, places, seed, before, s)
    ensures GroupInv(h, places, seed, before, Absorb(h, places, seed, j, s))
    decreases |places| - j
  {
    if j < |places| {
      var other := places[j];
      if !(seed.id == other.id || other.id in s.processed) && WithinThreshold(h, seed, other) {
        var g' := s.group + [other];
        IdSetAppend(s.group, [other]);
        assert IdSet([other]) == {other.id};
        DistinctIdsAppend(s.group, [other]);
        assert g'[0] == seed;
        assert forall k :: 1 <= k < |g'| - 1 ==> g'[k] == s.group[k];
        AbsorbKeeps(h, places, seed, before, j + 1, Scan(s.processed + {other.id}, g'));
      } else {
        AbsorbKeeps(h, places, seed, before, j + 1, s);
      }
    }
  }

  /** The invariant of the outer pass after `places[..i]`. */
  ghost predicate SweepInv(h: MathHost, places: seq<Place>, i: nat, processed: set<string>, result: seq<Marker>)
    requires i <= |places|
  {
    && (forall m :: m in result ==> WellFormed(h, m))
    && |result| <= i
    && DistinctIds(Flatten(result))
    && IdSet(Flatten(result)) == processed
    && (forall q :: q in Flatten(result) ==> q in places)
    && IdSet(places[..i]) <= processed
  }

  lemma FlattenSnoc(ms: seq<Marker>, m: Marker)
    ensures Flatten(ms + [m]) == Flatten(ms) + Members(m)
  {
    FlattenAppend(ms, [m]);
    assert Flatten([m]) == Members(m) + Flatten([]);
  }

  /** A finished group gives a well-formed marker holding exactly that group. */
  lemma GroupMarkerWellFormed(h: MathHost, places: seq<Place>, seed: Place, before: set<string>, s: Scan)
    requires GroupInv(h, places, seed, before, s)
    ensures Members(GroupMarker(h, seed, s.group)) == s.group
    ensures WellFormed(h, GroupMarker(h, seed, s.group))
  {
    if |s.group| == 1 {
      assert s.group == [seed];
    }
  }

  /** Appending a marker with fresh, distinct members keeps the members distinct and inside `places`. */
  lemma FlattenStep(places: seq<Place>, processed: set<string>, result: seq<Marker>, m: Marker)
    requires DistinctIds(Flatten(result)) && IdSet(Flatten(result)) == processed
    requires forall q :: q in Flatten(result) ==> q in places
    requires DistinctIds(Members(m)) && IdSet(Members(m)) !! processed
    requires forall q :: q in Members(m) ==> q in places
    ensures DistinctIds(Flatten(result + [m]))
    ensures IdSet(Flatten(result + [m])) == processed + IdSet(Members(m))
    ensures forall q :: q in Flatten(result + [m]) ==> q in places
  {
    FlattenSnoc(result, m);
    DistinctIdsAppend(Flatten(result), Members(m));
    IdSetAppend(Flatten(result), Members(m));
  }

  /** Once `places[i]` is processed, every id of `places[..i + 1]` is. */
  lemma PrefixStep(places: seq<Place>, i: nat, processed: set<string>, after: set<string>)
    requires i < |places|
    requires IdSet(places[..i]) <= processed <= after
    requires places[i].id in after
    ensures IdSet(places[..i + 1]) <= after
  {
    assert places[..i + 1] == places[..i] + [places[i]];
    IdSetAppend(places[..i], [places[i]]);
    assert IdSet([places[i]]) == {places[i].id};
  }

  /** Appending a finished group to the markers keeps the invariant of the outer pass. */
  lemma GroupStepKeeps(h: MathHost, places: seq<Place>, i: nat, processed: set<string>, result: seq<Marker>, s: Scan)
    requires i < |places|
    requires SweepInv(h, places, i, processed, result)
    requires GroupInv(h, places, places[i], processed, s)
    ensures SweepInv(h, places, i + 1, s.processed, result + [GroupMarker(h, places[i], s.group)])
  {
    var m := GroupMarker(h, places[i], s.group);
    GroupMarkerWellFormed(h, places, places[i], processed, s);
    assert forall x :: x in result + [m] ==> x in result || x == m;
    FlattenStep(places, processed, result, m);
    assert places[i] == s.group[0];
    assert places[i].id in IdSet(s.group);
    PrefixStep(places, i, processed, s.processed);
  }

  /** Taking `places[i]` as a seed keeps the invariant of the outer pass. */
  lemma SeedStepKeeps(h: MathHost, places: seq<Place>, i: nat, processed: set<string>, result: seq<Marker>)
    requires i < |places|
    requires SweepInv(h, places, i, processed, result)
    requires places[i].id !in processed
    ensures var s := Absorb(h, places, places[i], 0, Scan(processed + {places[i].id}, [places[i]]));
            SweepInv(h, places, i + 1, s.processed, result + [GroupMarker(h, places[i], s.group)])
  {
    var place := places[i];
    var s0 := Scan(processed + {place.id}, [place]);
    assert IdSet([place]) == {place.id};
    assert GroupInv(h, places, place, processed, s0);
    AbsorbKeeps(h, places, place, processed, 0, s0);
    GroupStepKeeps(h, places, i, processed, result, Absorb(h, places, place, 0, s0));
  }

  /** A place whose id is already processed leaves the invariant of the outer pass intact. */
  lemma SkipStepKeeps(h: MathHost, places: seq<Place>, i: nat, processed: set<string>, result: seq<Marker>)
    requires i < |places|
    requires SweepInv(h, places, i, processed, result)
    requires places[i].id in processed
    ensures SweepInv(h, places, i + 1, processed, result)
  {
    assert places[..i + 1] == places[..i] + [places[i]];
    IdSetAppend(places[..i], [places[i]]);
    assert IdSet([places[i]]) == {places[i].id};
  }

  /** At the end of the outer pass the invariant is the partition property. */
  lemma SweepDone(h: MathHost, places: seq<Place>, processed: set<string>, result: seq<Marker>)
    requires SweepInv(h, places, |places|, processed, result)
    ensures IsMarkerPartition(h, places, result)
  {
    assert places[..|places|] == places;
    forall id | id in IdSet(Flatten(result)) ensures id in IdSet(places) {
      var p :| p in Flatten(result) && p.id == id;
    }
  }

  lemma {:induction false} SweepKeeps(h: MathHost, places: seq<Place>, i: nat, processed: set<string>, result: seq<Marker>)
    requires i <= |places|
    requires SweepInv(h, places, i, processed, result)
    ensures IsMarkerPartition(h, places, Sweep(h, places, i, processed, result))
    decreases |places| - i
  {
    if i == |places| {
      SweepDone(h, places, processed, result);
    } else if places[i].id in processed {
      SkipStepKeeps(h, places, i, processed, result);
      SweepKeeps(h, places, i + 1, processed, result);
    } else {
      SeedStepKeeps(h, places, i, processed, result);
      var s := Absorb(h, places, places[i], 0, Scan(processed + {places[i].id}, [places[i]]));
      SweepKeeps(h, places, i + 1, s.processed, result + [GroupMarker(h, places[i], s.group)]);
    }
  }

  /** For every input, the emitted markers are well formed and partition the input's ids. */
  lemma MarkersPartition(h: MathHost, places: seq<Place>)
    ensures IsMarkerPartition(h, places, Markers(h, places))
  {
    assert places[..0] == [];
    SweepKeeps(h, places, 0, {}, []);
  }

  // ---------------------------------------------------------------------------
  // Marker views: pins, cluster badges and their click intents
  // ---------------------------------------------------------------------------

  /** What a click on a marker reports to the application. */
  datatype ClickIntent = SelectPlaceId(id: string) | SelectClusterPlaces(places: seq<Place>)

  /** A `PlaceMarker` pin or a `ClusterMarker` badge of the scene. */
  datatype MarkerView =
    | PinView(key: string, position: Vec3, selected: bool, click: ClickIntent)
    | BadgeView(key: string, position: Vec3, count: nat, click: ClickIntent)

  function ViewOf(m: Marker, selectedPlaceId: Option<string>): MarkerView {
    match m
    case Cluster(id, pos, ps) => BadgeView(id, pos, |ps|, SelectClusterPlaces(ps))
    case Single(id, pos, p) => PinView(id, pos, selectedPlaceId == Some(p.id), SelectPlaceId(p.id))
  }

  /** `markers.map(...)` in the scene: one view per marker, in marker order. */
  function RenderMarkers(ms: seq<Marker>, selectedPlaceId: Option<string>): (views: seq<MarkerView>)
    ensures |views| == |ms|
    ensures forall k :: 0 <= k < |ms| ==>
      && (views[k].PinView? <==> ms[k].Single?)
      && views[k].key == ms[k].id
      && views[k].position == ms[k].position
    ensures forall k :: 0 <= k < |ms| && ms[k].Single? ==>
      && (views[k].selected <==> selectedPlaceId == Some(ms[k].place.id))
      && views[k].click == SelectPlaceId(ms[k].place.id)
    ensures forall k :: 0 <= k < |ms| && ms[k].Cluster? ==>
      && views[k].count == |ms[k].places|
      && views[k].click == SelectClusterPlaces(ms[k].places)
  {
    if ms == [] then [] else [ViewOf(ms[0], selectedPlaceId)] + RenderMarkers(ms[1..], selectedPlaceId)
  }

  lemma {:induction false} MemberInFlatten(ms: seq<Marker>, k: nat, q: Place)
    requires k < |ms| && q in Members(ms[k])
    ensures q in Flatten(ms)
  {
    if k > 0 {
      MemberInFlatten(ms[1..], k - 1, q);
    }
  }

  /** When no id occurs twice among the members, two single markers carry different places' ids. */
  lemma {:induction false} SinglesHaveDistinctIds(ms: seq<Marker>)
    requires DistinctIds(Flatten(ms))
    ensures forall a, b :: 0 <= a < b < |ms| && ms[a].Single? && ms[b].Single? ==> ms[a].place.id != ms[b].place.id
  {
    if ms != [] {
      DistinctIdsAppend(Members(ms[0]), Flatten(ms[1..]));
      SinglesHaveDistinctIds(ms[1..]);
      forall b | 0 < b < |ms| && ms[0].Single? && ms[b].Single? ensures ms[0].place.id != ms[b].place.id {
        MemberInFlatten(ms[1..], b - 1, ms[b].place);
        assert ms[0].place.id in IdSet(Members(ms[0]));
        assert ms[b].place.id in IdSet(Flatten(ms[1..]));
      }
      forall a, b | 0 < a < b < |ms| && ms[a].Single? && ms[b].Single? ensures ms[a].place.id != ms[b].place.id {
        assert ms[1..][a - 1] == ms[a] && ms[1..][b - 1] == ms[b];
      }
    }
  }

  /** On the globe at most one pin is highlighted, and a highlighted pin is the selected place's. */
  lemma AtMostOnePinSelected(h: MathHost, places: seq<Place>, selectedPlaceId: Option<string>)
    ensures var views := RenderMarkers(Markers(h, places), selectedPlaceId);
      forall a, b :: 0 <= a < b < |views| && views[a].PinView? && views[b].PinView? ==>
        !(views[a].selected && views[b].selected)
  {
    MarkersPartition(h, places);
    SinglesHaveDistinctIds(Markers(h, places));
  }
}
